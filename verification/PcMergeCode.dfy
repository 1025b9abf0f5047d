/**
 What merging plain product-code stripes side by side does to their blocks: with the kept blocks moved and
 the row parities recalculated, the merged stripe is a codeword of the wider code.
 */
module PcMergeCode {
  import opened Listing
  import opened Partitions
  import opened RowMajor
  import opened Fields
  import opened Sums
  import opened ErasureCode
  import opened Deviations
  import opened Recalculation
  import opened RsCode
  import opened PcLayout
  import opened PcRepair
  import opened PcCodewords
  import opened Stripes
  import opened MergeTables
  import opened MergeStore
  import opened PcMerge

  /** The old stripes' blocks, by block id, with their code; and the wider stripe's shape and row code. */
  datatype Merging<!E> = Merging(f: Field<E>, codes: Codes<E>, pc: Params, x: nat, w: Params, wide: seq<seq<E>>,
                                 olds: seq<seq<Block<E>>>, size: nat)

  ghost predicate OldFits<E>(m: Merging<E>, s: nat) {
    s < |m.olds| && |m.olds[s]| == BlockCount(m.pc) && GridFits(Rowed(m.olds[s], m.pc), m.pc, m.size)
  }

  ghost predicate Fits<E>(m: Merging<E>) {
    && m.pc.k1 >= 1 && m.w == Wider(m.pc, m.x) && |m.olds| == m.x && IsTable(m.wide, m.pc.m1, m.w.k1)
    && forall s :: 0 <= s < m.x ==> OldFits(m, s)
  }

  ghost function OldGrid<E>(m: Merging<E>, s: nat): (g: seq<seq<Block<E>>>)
    requires OldFits(m, s)
    ensures GridFits(g, m.pc, m.size)
  {
    Rowed(m.olds[s], m.pc)
  }

  /** The old stripes are codewords. */
  ghost predicate MergeOk<E(!new)>(m: Merging<E>) {
    && Laws(m.f) && Fits(m) && m.x >= 1 && CodesFit(m.codes, m.pc)
    && forall s :: 0 <= s < m.x && OldFits(m, s) ==> IsPcCodeword(m.f, m.codes, m.pc, PlainShape(m.pc), OldGrid(m, s), m.size)
  }

  /** The kept blocks of row r of the first n stripes, one stripe after another. */
  ghost function KeptRow<E>(m: Merging<E>, r: nat, n: nat): (d: seq<Block<E>>)
    requires Fits(m) && r < Rows(m.pc) && n <= m.x
    ensures IsTable(d, n * m.pc.k1, m.size)
  {
    if n == 0 then []
    else
      assert OldFits(m, n - 1);
      assert n * m.pc.k1 == (n - 1) * m.pc.k1 + m.pc.k1;
      KeptRow(m, r, n - 1) + OldGrid(m, n - 1)[r][..m.pc.k1]
  }

  lemma {:induction false} KeptAt<E>(m: Merging<E>, r: nat, n: nat, s: nat, col: nat)
    requires Fits(m) && r < Rows(m.pc) && s < n <= m.x && col < m.pc.k1
    ensures OldFits(m, s) && Pos(s, col, m.pc.k1) < |KeptRow(m, r, n)|
    ensures KeptRow(m, r, n)[Pos(s, col, m.pc.k1)] == OldGrid(m, s)[r][col]
  {
    assert OldFits(m, n - 1) && OldFits(m, s);
    PosBound(s, col, m.pc.k1, n);
    if s < n - 1 {
      KeptAt(m, r, n - 1, s, col);
    }
  }

  /** A row of the merged stripe: the kept blocks and their encoding by the wide row code. */
  ghost function MergedRow<E>(m: Merging<E>, r: nat): (line: seq<Block<E>>)
    requires Fits(m) && r < Rows(m.pc)
    ensures IsRsLine(m.f, m.wide, m.w.k1, line, m.size) && line[..m.w.k1] == KeptRow(m, r, m.x)
  {
    var d := KeptRow(m, r, m.x);
    d + EncodeBlocks(m.f, m.wide, d, m.size)
  }

  ghost function MergedGrid<E>(m: Merging<E>): (g: seq<seq<Block<E>>>)
    requires Fits(m)
    ensures GridFits(g, m.w, m.size) && Rows(m.w) == Rows(m.pc) && m.w.m1 == m.pc.m1
    ensures forall r :: 0 <= r < Rows(m.pc) ==> g[r] == MergedRow(m, r)
  {
    seq(Rows(m.pc), r requires 0 <= r < Rows(m.pc) => MergedRow(m, r))
  }

  function WideCodes<E>(codes: Codes<E>, wide: seq<seq<E>>): Codes<E> { Codes(wide, codes.col) }

  /** A kept column is the column of an old stripe. */
  lemma KeptColumn<E>(m: Merging<E>, s: nat, col: nat)
    requires Fits(m) && s < m.x && col < m.pc.k1
    ensures OldFits(m, s) && Pos(s, col, m.pc.k1) < m.w.k1
    ensures Column(MergedGrid(m), Pos(s, col, m.pc.k1)) == Column(OldGrid(m, s), col)
  {
    hide Pos, MergedGrid, MergedRow, KeptRow, Wider, OldGrid;
    var c, g := Pos(s, col, m.pc.k1), MergedGrid(m);
    assert OldFits(m, s);
    PosBound(s, col, m.pc.k1, m.x);
    WideSize(m);
    forall r: nat | r < Rows(m.pc)
      ensures g[r][c] == OldGrid(m, s)[r][col]
    {
      KeptAt(m, r, m.x, s, col);
      assert g[r][c] == g[r][..m.w.k1][c];
    }
  }

  lemma WideSize<E>(m: Merging<E>)
    requires Fits(m)
    ensures m.w.k1 == m.x * m.pc.k1
  {
  }

  lemma KeptColumnIsCodeword<E(!new)>(m: Merging<E>, c: nat)
    requires MergeOk(m) && c < m.w.k1
    ensures IsCodeword(m.f, m.codes.col, m.pc.k2, Column(MergedGrid(m), c), m.size)
  {
    hide MergedGrid, MergedRow, IsCodeword, RowOf, ColOf, OldGrid, Pos, Wider;
    WideSize(m);
    RowInBounds(c, m.pc.k1, m.x);
    PosOfRowCol(c, m.pc.k1);
    var s, col := RowOf(c, m.pc.k1), ColOf(c, m.pc.k1);
    KeptColumn(m, s, col);
    assert ColIsCodeword(m.f, m.codes, m.pc, OldGrid(m, s), m.size, col);
  }

  lemma FitsFacts<E(!new)>(m: Merging<E>)
    requires MergeOk(m)
    ensures Laws(m.f) && Fits(m) && CodesFit(m.codes, m.pc) && CodesFit(WideCodes(m.codes, m.wide), m.w)
    ensures Rows(m.w) == Rows(m.pc) && Cols(m.w) == m.w.k1 + m.pc.m1 && m.w.k2 == m.pc.k2 && m.w.m2 == m.pc.m2 && m.w.m1 == m.pc.m1
  {
  }

  lemma MergedEncoded<E(!new)>(m: Merging<E>)
    requires MergeOk(m)
    ensures CodesFit(WideCodes(m.codes, m.wide), m.w) && m.w.k1 <= Cols(m.w)
    ensures RowsEncoded(m.f, WideCodes(m.codes, m.wide), m.w, MergedGrid(m), m.size, m.w.k2)
    ensures ColsEncoded(m.f, WideCodes(m.codes, m.wide), m.w, MergedGrid(m), m.size, m.w.k1)
  {
    hide MergedGrid, MergedRow, MergeOk, Fits;
    FitsFacts(m);
    var g := MergedGrid(m);
    forall r | 0 <= r < m.w.k2
      ensures IsRsLine(m.f, m.wide, m.w.k1, g[r], m.size)
    {
    }
    forall c: nat, j: nat | c < m.w.k1 && j < m.w.m2
      ensures g[m.w.k2 + j][c] == CodingBlock(m.f, m.codes.col[j], Column(g[..m.w.k2], c), m.size)
    {
      KeptColumnIsCodeword(m, c);
      assert Column(g, c)[..m.w.k2] == Column(g[..m.w.k2], c);
    }
  }

  lemma ParityBlock<E(!new)>(m: Merging<E>, b: nat, a: nat)
    requires MergeOk(m) && b < m.pc.m1 && a < m.pc.m2
    ensures var g, c := MergedGrid(m), m.w.k1 + b;
            g[m.w.k2 + a][c] == CodingBlock(m.f, m.codes.col[a], Column(g[..m.w.k2], c), m.size)
  {
    hide MergedGrid, MergedRow, RowsEncoded, ColsEncoded, MergeOk, Fits, IsRsLine;
    FitsFacts(m);
    var g, c := MergedGrid(m), m.w.k1 + b;
    MergedEncoded(m);
    RowParityIs(m, m.w.k2 + a, b);
    InterchangeAtBlock(m.f, WideCodes(m.codes, m.wide), m.w, g, m.size, m.w.k1, a, b);
  }

  /** A recalculated parity is the encoding of its row. */
  lemma RowParityIs<E(!new)>(m: Merging<E>, r: nat, b: nat)
    requires Fits(m) && r < Rows(m.pc) && b < m.pc.m1
    ensures m.w.k1 + b < |MergedGrid(m)[r]| && m.w.k1 <= |MergedGrid(m)[r]|
    ensures MergedGrid(m)[r][m.w.k1 + b] == CodingBlock(m.f, m.wide[b], MergedGrid(m)[r][..m.w.k1], m.size)
  {
    hide MergedGrid, MergedRow, OldFits, Wider;
  }

  /** The recalculated parity columns are codewords of the column code, although it was never applied to them. */
  lemma ParityColumn<E(!new)>(m: Merging<E>, b: nat)
    requires MergeOk(m) && b < m.pc.m1
    ensures IsCodeword(m.f, m.codes.col, m.pc.k2, Column(MergedGrid(m), m.w.k1 + b), m.size)
  {
    hide MergedGrid, MergedRow, MergeOk, Fits, IsRsLine;
    FitsFacts(m);
    var g, c := MergedGrid(m), m.w.k1 + b;
    assert Column(g, c)[..m.w.k2] == Column(g[..m.w.k2], c);
    forall a: nat | a < m.pc.m2
      ensures g[m.pc.k2 + a][c] == CodingBlock(m.f, m.codes.col[a], Column(g, c)[..m.pc.k2], m.size)
    {
      ParityBlock(m, b, a);
    }
  }

  lemma MergedRowIsCodeword<E>(m: Merging<E>, r: nat)
    requires Fits(m) && r < Rows(m.pc)
    ensures IsCodeword(m.f, m.wide, m.w.k1, MergedGrid(m)[r], m.size)
  {
    hide MergedGrid, MergedRow, Fits;
    assert IsRsLine(m.f, m.wide, m.w.k1, MergedRow(m, r), m.size);
  }

  /** The merged stripe is a codeword of the wider code: all of its rows and all of its columns are. */
  lemma MergedIsCodeword<E(!new)>(m: Merging<E>)
    requires MergeOk(m)
    ensures IsPcCodeword(m.f, WideCodes(m.codes, m.wide), m.w, PlainShape(m.w), MergedGrid(m), m.size)
  {
    hide MergedGrid, MergedRow, IsCodeword, MergeOk, Fits;
    FitsFacts(m);
    var w, g := WideCodes(m.codes, m.wide), MergedGrid(m);
    MergedEncoded(m);
    forall r: nat | r < Rows(m.w)
      ensures RowIsCodeword(m.f, w, m.w, g, m.size, r)
    {
      MergedRowIsCodeword(m, r);
    }
    forall c: nat | c < Cols(m.w)
      ensures ColIsCodeword(m.f, w, m.w, g, m.size, c)
    {
      if c < m.w.k1 {
        KeptColumnIsCodeword(m, c);
      } else {
        ParityColumn(m, c - m.w.k1);
      }
    }
  }

  // Storing the blocks.

  /** The blocks of a grid by block id. */
  ghost function Laid<X>(g: seq<seq<X>>, pc: Params): (b: seq<X>)
    requires IsTable(g, Rows(pc), Cols(pc))
    ensures |b| == BlockCount(pc)
    ensures forall i :: 0 <= i < |b| ==> b[i] == g[Bid2RowCol(pc, i).0][Bid2RowCol(pc, i).1]
  {
    hide Bid2RowCol;
    seq(BlockCount(pc), i requires 0 <= i < BlockCount(pc) => g[Bid2RowCol(pc, i).0][Bid2RowCol(pc, i).1])
  }

  lemma LaidAt<X>(g: seq<seq<X>>, pc: Params, r: nat, c: nat)
    requires IsTable(g, Rows(pc), Cols(pc)) && r < Rows(pc) && c < Cols(pc)
    ensures RowCol2Bid(pc, r, c) < |Laid(g, pc)| == BlockCount(pc) && Laid(g, pc)[RowCol2Bid(pc, r, c)] == g[r][c]
  {
    hide Bid2RowCol, RowCol2Bid, BlockCount, Laid;
    LayoutRoundTrip(pc, r, c);
  }

  ghost function MergedBlocks<E>(m: Merging<E>): seq<Block<E>>
    requires Fits(m)
  {
    Laid(MergedGrid(m), m.w)
  }

  /** Every kept block is, at its new place, the block the merged stripe should have there. */
  lemma KeptBlocksMatch<E>(m: Merging<E>)
    requires Fits(m)
    ensures KeepsBlocks(Origins(m.pc, m.x), m.olds, MergedBlocks(m))
  {
    hide MergedGrid, MergedRow, RowCol2Bid, Bid2RowCol, BlockCount, RowOf, ColOf, Laid, Wider, OldFits, KeptRow, Pos;
    WideSize(m);
    WideShape(m);
    var origins, blocks := Origins(m.pc, m.x), MergedBlocks(m);
    forall j: nat | j < |origins| && origins[j].Old?
      ensures && origins[j].stripe < |m.olds| && origins[j].block < |m.olds[origins[j].stripe]|
              && blocks[j] == m.olds[origins[j].stripe][origins[j].block]
    {
      var (row, col) := Bid2RowCol(m.w, j);
      RowInBounds(col, m.pc.k1, m.x);
      PosOfRowCol(col, m.pc.k1);
      var s, c := RowOf(col, m.pc.k1), ColOf(col, m.pc.k1);
      KeptAt(m, row, m.x, s, c);
      OldAt(m, s, row, c);
      assert MergedGrid(m)[row][col] == MergedGrid(m)[row][..m.w.k1][col];
    }
  }

  lemma WideShape<E>(m: Merging<E>)
    requires Fits(m)
    ensures Rows(m.w) == Rows(m.pc) && Cols(m.w) == m.w.k1 + m.pc.m1
  {
  }

  lemma OldAt<E>(m: Merging<E>, s: nat, row: nat, col: nat)
    requires OldFits(m, s) && row < Rows(m.pc) && col < Cols(m.pc)
    ensures RowCol2Bid(m.pc, row, col) < |m.olds[s]| && OldGrid(m, s)[row][col] == m.olds[s][RowCol2Bid(m.pc, row, col)]
  {
  }

  /** What the clusters read for row r: its kept blocks. */
  method ReadRow<E>(t: StripeInfo, store: map<nat, Block<E>>, w: Params, r: nat, ghost g: seq<seq<Block<E>>>,
                    ghost origins: seq<Origin>) returns (d: seq<Block<E>>)
    requires IsTable(g, Rows(w), Cols(w)) && r < Rows(w) && |origins| == BlockCount(w)
    requires HeldTo(origins, t, store, Laid(g, w), r, 0)
    requires forall c :: 0 <= c < w.k1 && RowCol2Bid(w, r, c) < |origins| ==> origins[RowCol2Bid(w, r, c)].Old?
    ensures |d| == w.k1 + w.m1 && forall c :: 0 <= c < w.k1 ==> d[c] == g[r][c]
  {
    hide RowCol2Bid, BlockCount, Laid;
    d := [];
    for c := 0 to w.k1
      invariant |d| == c && forall a :: 0 <= a < c ==> d[a] == g[r][a]
    {
      LaidAt(g, w, r, c);
      assert Held(t, store, Laid(g, w), RowCol2Bid(w, r, c));
      d := d + [store[t.blockIds[RowCol2Bid(w, r, c)]]];
    }
    for p := 0 to w.m1
      invariant |d| == w.k1 + p && forall a :: 0 <= a < w.k1 ==> d[a] == g[r][a]
    {
      d := d + [[]];
    }
  }

  /** The places of the first columns have kept blocks. */
  lemma KeptPlaces<E>(m: Merging<E>, r: nat)
    requires Fits(m) && r < Rows(m.pc)
    ensures forall c :: 0 <= c < m.w.k1 && RowCol2Bid(m.w, r, c) < |Origins(m.pc, m.x)| ==>
              Origins(m.pc, m.x)[RowCol2Bid(m.w, r, c)].Old?
  {
    hide RowCol2Bid, Bid2RowCol, BlockCount, RowOf, ColOf, OldFits, Wider;
    WideSize(m);
    WideShape(m);
    forall c: nat | c < m.w.k1 && RowCol2Bid(m.w, r, c) < |Origins(m.pc, m.x)|
      ensures Origins(m.pc, m.x)[RowCol2Bid(m.w, r, c)].Old?
    {
      LayoutRoundTrip(m.w, r, c);
    }
  }

  /** Stores the new parities of one row. */
  method StoreRow<E(!new)>(ghost m: Merging<E>, pc: Params, w: Params, t: StripeInfo, r: nat, coding: seq<Block<E>>,
                     store0: map<nat, Block<E>>, ghost stripes: seq<StripeInfo>, ghost nodes: seq<seq<nat>>, ghost writes: seq<nat>,
                     ghost startOf: seq<int>, ghost cur0: nat, ghost cur: nat, ghost first: map<nat, Block<E>>)
      returns (store: map<nat, Block<E>>)
    requires Fits(m) && m.pc == pc && m.w == w && r < Rows(pc) && coding == MergedGrid(m)[r][w.k1..]
    requires TablesOk(Origins(pc, m.x), stripes, nodes, t, writes, startOf, pc.m1, cur0, cur)
    requires OldStored(stripes, m.olds, first, cur0) && HeldTo(Origins(pc, m.x), t, store0, MergedBlocks(m), r, 0)
    ensures var next := r + 1; HeldTo(Origins(pc, m.x), t, store, MergedBlocks(m), next, 0)
  {
    hide RowCol2Bid, Bid2RowCol, BlockCount, HeldTo, TablesOk, Fits, MergedBlocks, OriginOf, OldStored, Wider, MergedGrid;
    store := store0;
    WiderIs(m);
    ghost var origins := Origins(pc, m.x);
    for p := 0 to pc.m1
      invariant HeldTo(origins, t, store, MergedBlocks(m), r, p)
    {
      NewParityIs(m, r, p);
      HeldMore(origins, stripes, nodes, t, writes, startOf, pc.m1, cur0, cur, m.olds, first, store, MergedBlocks(m), r, p,
               RowCol2Bid(w, r, w.k1 + p));
      store := store[t.blockIds[RowCol2Bid(w, r, w.k1 + p)] := coding[p]];
    }
    NewOnes(m.pc, m.x);
    HeldNextRow(origins, t, store, MergedBlocks(m), r, pc.m1);
  }

  lemma WiderIs<E>(m: Merging<E>)
    requires Fits(m)
    ensures m.pc.k1 >= 1 && m.w == Wider(m.pc, m.x) && |MergedGrid(m)| == Rows(m.pc)
    ensures forall r :: 0 <= r < Rows(m.pc) ==> |MergedGrid(m)[r]| == m.w.k1 + m.pc.m1
  {
    hide MergedGrid;
  }

  lemma NewParityPlace<E>(m: Merging<E>, r: nat, p: nat)
    requires Fits(m) && r < Rows(m.pc) && p < m.pc.m1
    ensures IsPlace(Origins(m.pc, m.x), RowCol2Bid(m.w, r, m.w.k1 + p), New(r, p))
  {
    hide RowCol2Bid, Bid2RowCol, BlockCount, OriginOf, OldFits, Wider, Origins;
    WideSize(m);
    PlaceIs(m.pc, m.x, New(r, p));
  }

  lemma NewParityBlock<E>(m: Merging<E>, r: nat, p: nat)
    requires Fits(m) && r < Rows(m.pc) && p < m.pc.m1
    ensures RowCol2Bid(m.w, r, m.w.k1 + p) < |MergedBlocks(m)|
    ensures m.w.k1 + p < |MergedGrid(m)[r]|
    ensures MergedBlocks(m)[RowCol2Bid(m.w, r, m.w.k1 + p)] == MergedGrid(m)[r][m.w.k1 + p]
  {
    hide RowCol2Bid, BlockCount, Fits, MergedGrid, Laid, MergedBlocks, Rows, Cols, MergedRow, GridFits, IsRsLine, Wider;
    WideShape(m);
    BlocksAreLaid(m);
    LaidAt(MergedGrid(m), m.w, r, m.w.k1 + p);
  }

  /** The place of a new parity, and the block that belongs there. */
  lemma NewParityIs<E>(m: Merging<E>, r: nat, p: nat)
    requires Fits(m) && r < Rows(m.pc) && p < m.pc.m1
    ensures IsPlace(Origins(m.pc, m.x), RowCol2Bid(m.w, r, m.w.k1 + p), New(r, p))
    ensures RowCol2Bid(m.w, r, m.w.k1 + p) < |MergedBlocks(m)|
    ensures m.w.k1 + p < |MergedGrid(m)[r]|
    ensures MergedBlocks(m)[RowCol2Bid(m.w, r, m.w.k1 + p)] == MergedGrid(m)[r][m.w.k1 + p]
  {
    hide RowCol2Bid, BlockCount, OriginOf, Fits, MergedGrid, Laid, Origins, IsPlace, MergedBlocks;
    NewParityPlace(m, r, p);
    NewParityBlock(m, r, p);
  }

  lemma NewOnes(pc: Params, x: nat)
    requires pc.k1 >= 1
    ensures forall j :: 0 <= j < |Origins(pc, x)| ==>
              Origins(pc, x)[j].New? ==> Origins(pc, x)[j].row < Rows(pc) && Origins(pc, x)[j].parity < pc.m1
  {
    hide OriginOf, BlockCount;
    OriginsOk(pc, x);
    forall j | 0 <= j < |Origins(pc, x)|
      ensures OriginOk(Origins(pc, x)[j], x, BlockCount(pc), Rows(pc), pc.m1)
    {
    }
  }

  /** A row's kept blocks by cluster: the recalculating cluster's own blocks and those of the helpers. */
  datatype Split = Split(own: seq<nat>, help: seq<seq<nat>>)

  ghost predicate SplitsOk(splits: seq<Split>, rows: nat, k: nat) {
    |splits| == rows && forall r :: 0 <= r < rows ==> SameBlocks(splits[r].own + Concat(splits[r].help), UpTo(k))
  }

  /**
   In every row no help cluster sends partial blocks. The plan sent to a help cluster names the product code
   but leaves its sizes unset, so nothing is known of partial blocks that are computed from it.
   */
  ghost predicate HelpersOnlyRead(splits: seq<Split>, m1: nat, partialDecoding: bool) {
    forall r :: 0 <= r < |splits| ==> NoneSendsPartial(splits[r].help, m1, partialDecoding)
  }

  /** The parities of one row come out right when no help cluster sends partial blocks. */
  method RecalculateRow<E(0, !new)>(ghost m: Merging<E>, f: Field<E>, wide: seq<seq<E>>, w: Params, r: nat, split: Split,
                                    partialDecoding: bool, helper: Helper<E>, d: seq<Block<E>>, size: nat)
      returns (coding: seq<Block<E>>)
    requires MergeOk(m) && m.f == f && m.wide == wide && m.w == w && m.size == size && r < Rows(m.pc)
    requires |d| == w.k1 + w.m1 && forall c :: 0 <= c < w.k1 && c < |MergedGrid(m)[r]| ==> d[c] == MergedGrid(m)[r][c]
    requires SameBlocks(split.own + Concat(split.help), UpTo(w.k1)) && NoneSendsPartial(split.help, m.pc.m1, partialDecoding)
    ensures |MergedGrid(m)[r]| == w.k1 + m.pc.m1 && coding == MergedGrid(m)[r][w.k1..]
  {
    hide MergedGrid, MergedRow, MergeOk, Fits, SameBlocks, SentPartial, IsRsLine, StoredOk, SendsTables, LineJob, Outcome;
    FitsFacts(m);
    WiderIs(m);
    ghost var line := MergedRow(m, r);
    RowIsReadable(m, r, d);
    NoneSendsWhen(split.help, m.pc.m1, partialDecoding);
    NothingSent(f, wide, w.k1, line, size, helper);
    var parities := RecalculateLine(f, wide, w.k1, split.own, split.help, partialDecoding, helper, d, size, line);
    coding := parities[..];
  }

  lemma RowIsReadable<E>(m: Merging<E>, r: nat, d: seq<Block<E>>)
    requires Fits(m) && r < Rows(m.pc) && |d| == m.w.k1 + m.pc.m1
    requires forall c :: 0 <= c < m.w.k1 && c < |MergedGrid(m)[r]| ==> d[c] == MergedGrid(m)[r][c]
    ensures IsRsLine(m.f, m.wide, m.w.k1, MergedRow(m, r), m.size) && |m.wide| == m.pc.m1
    ensures StoredOk(d, MergedRow(m, r), UpTo(m.w.k1), m.size) && MergedGrid(m)[r] == MergedRow(m, r)
  {
    hide MergedGrid, MergedRow, OldFits, Wider;
  }

  /** Without partial blocks from the helpers the outcome is the line's parities. */
  lemma NothingSent<E(!new)>(f: Field<E>, a: seq<seq<E>>, k: nat, line: seq<Block<E>>, size: nat, helper: Helper<E>)
    requires Laws(f) && IsRsLine(f, a, k, line, size)
    ensures Shaped(LineJob(f, a, k, line, size)) && SendsTables(LineJob(f, a, k, line, size), helper, [])
    ensures Outcome(LineJob(f, a, k, line, size), helper, []) == line[k..]
  {
    hide RsCheckTable;
    RightHelpers(LineJob(f, a, k, line, size), helper, []);
    PickTail(line, k, |a|);
  }

  /**
   The whole merge, when in no row a help cluster sends partial blocks: every place of the merged stripe ends
   up with its block of MergedGrid, which by MergedIsCodeword is a codeword of the wider code.
   */
  method MergeStripes<E(0, !new)>(ghost m: Merging<E>, f: Field<E>, pc: Params, x: nat, wide: seq<seq<E>>, size: nat,
                                  stripes: seq<StripeInfo>, curBlockId: nat, splits: seq<Split>, partialDecoding: bool,
                                  helper: Helper<E>, store0: map<nat, Block<E>>)
      returns (larger: StripeInfo, store: map<nat, Block<E>>)
    requires MergeOk(m) && m.f == f && m.pc == pc && m.x == x && m.wide == wide && m.size == size
    requires StripesOk(pc, x, stripes) && OldStored(stripes, m.olds, store0, curBlockId)
    requires SplitsOk(splits, Rows(pc), m.w.k1) && HelpersOnlyRead(splits, pc.m1, partialDecoding)
    ensures |larger.blockIds| == |MergedBlocks(m)|
    ensures forall j :: 0 <= j < |larger.blockIds| ==> Held(larger, store, MergedBlocks(m), j)
  {
    hide MergeOk, Fits, MergedGrid, RowCol2Bid, Bid2RowCol, BlockCount, HeldTo, MergedBlocks, OriginOf, OldStored, Wider,
         NewPlaces, IdsApart, SameBlocks, NodesKept, NoneSendsPartial, Laid, TablesOk;
    FitsFacts(m);
    WiderIs(m);
    var w := Wider(pc, x);
    ghost var origins := Origins(pc, x);
    ghost var writes, startOf;
    var plans, cur, nodes;
    larger, plans, cur, nodes, writes, startOf := HorizontalMerge(pc, x, stripes, curBlockId);
    store := store0;
    TablesReady(pc, x, stripes, nodes, larger, writes, startOf, curBlockId, cur);
    KeptBlocksMatch(m);
    KeptHeld(origins, stripes, nodes, larger, writes, startOf, pc.m1, curBlockId, cur, m.olds, store, MergedBlocks(m));
    for r := 0 to Rows(pc)
      invariant HeldTo(origins, larger, store, MergedBlocks(m), r, 0)
    {
      KeptPlaces(m, r);
      BlocksAreLaid(m);
      var d := ReadRow(larger, store, w, r, MergedGrid(m), origins);
      var coding := RecalculateRow(m, f, wide, w, r, splits[r], partialDecoding, helper, d, size);
      store := StoreRow(m, pc, w, larger, r, coding, store, stripes, nodes, writes, startOf, curBlockId, cur, store0);
    }
    NewOnes(pc, x);
    AllHeld(origins, larger, store, MergedBlocks(m), Rows(pc));
  }

  lemma BlocksAreLaid<E>(m: Merging<E>)
    requires Fits(m)
    ensures MergedBlocks(m) == Laid(MergedGrid(m), m.w) && |Origins(m.pc, m.x)| == BlockCount(m.w)
    ensures Sums.IsTable(MergedGrid(m), Rows(m.w), Cols(m.w))
  {
    hide MergedGrid, Laid;
  }

  lemma TablesReady(pc: Params, x: nat, stripes: seq<StripeInfo>, nodes: seq<seq<nat>>, t: StripeInfo, writes: seq<nat>,
                       startOf: seq<int>, cur0: nat, cur: nat)
    requires pc.k1 >= 1 && |startOf| == Rows(pc) && IdsApart(pc.m1, startOf, cur0, cur)
    requires NewPlaces(Origins(pc, x), stripes, nodes, t, writes, startOf, -1, 0)
    requires forall r :: 0 <= r < Rows(pc) ==> startOf[r] >= cur0
    ensures TablesOk(Origins(pc, x), stripes, nodes, t, writes, startOf, pc.m1, cur0, cur)
  {
    hide OriginOf, BlockCount, NewPlaces, IdsApart;
    NewOnes(pc, x);
  }

  /**
   Whether a row's parities are right whatever the helpers compute: exactly when none of its help clusters
   sends partial blocks.
   */
  lemma RowRightAnywayWhen<E(!new)>(m: Merging<E>, r: nat, split: Split, partialDecoding: bool)
    requires MergeOk(m) && m.f.one != m.f.zero && r < Rows(m.pc) && m.pc.m1 >= 1 && m.size > 0
    requires SameBlocks(split.own + Concat(split.help), UpTo(m.w.k1))
    ensures var job := LineJob(m.f, m.wide, m.w.k1, MergedRow(m, r), m.size);
            && Shaped(job)
            && (RightAnyway(job, SentPartial(split.help, m.pc.m1, partialDecoding))
                <==> NoneSendsPartial(split.help, m.pc.m1, partialDecoding))
  {
    hide MergedRow, MergeOk, SameBlocks, SentPartial, RightAnyway, LineJob, NoneSendsPartial, IsRsLine, Shaped;
    FitsFacts(m);
    LineRightAnywayWhen(m.f, m.wide, m.w.k1, MergedRow(m, r), m.size, split.own, split.help, partialDecoding);
  }

  /** Two blocks of a row on one help cluster, with one row parity and partial decoding, are not safe. */
  lemma TwoBlocksMislead<E(!new)>(m: Merging<E>, r: nat, split: Split)
    requires MergeOk(m) && m.f.one != m.f.zero && r < Rows(m.pc) && m.pc.m1 == 1 && m.size > 0
    requires SameBlocks(split.own + Concat(split.help), UpTo(m.w.k1)) && split.help != [] && |split.help[0]| == 2
    ensures var job := LineJob(m.f, m.wide, m.w.k1, MergedRow(m, r), m.size);
            Shaped(job) && !RightAnyway(job, SentPartial(split.help, 1, true))
  {
    hide MergedRow, MergeOk, SameBlocks, SentPartial, RightAnyway, LineJob, Shaped;
    FitsFacts(m);
    RowRightAnywayWhen(m, r, split, true);
  }
}

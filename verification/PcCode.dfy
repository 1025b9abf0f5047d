/** Encoding a product-code stripe in place, and decoding it by peeling rows and columns. */
module PcCode {
  import opened Fields
  import opened Sums
  import opened ErasureCode
  import opened PcLayout
  import opened Peeling
  import opened PcRepair
  import opened PcCodewords

  function SetBlock<E>(g: seq<seq<E>>, r: nat, c: nat, b: E): (g': seq<seq<E>>)
    requires r < |g| && c < |g[r]|
    ensures |g'| == |g| && forall i :: 0 <= i < |g| ==> |g'[i]| == |g[i]|
    ensures forall i, j :: 0 <= i < |g| && 0 <= j < |g[i]| ==> g'[i][j] == if i == r && j == c then b else g[i][j]
  {
    g[r := g[r][c := b]]
  }

  /** Writing one block changes that cell of the grid and no other. */
  lemma WriteBlock<E>(stripe: seq<Block<E>>, pc: Params, r: nat, c: nat, b: Block<E>)
    requires |stripe| == BlockCount(pc) && r < Rows(pc) && c < Cols(pc)
    ensures RowCol2Bid(pc, r, c) < |stripe|
    ensures Rowed(stripe[RowCol2Bid(pc, r, c) := b], pc) == SetBlock(Rowed(stripe, pc), r, c, b)
  {
    hide RowCol2Bid, BlockCount, Rowed, SetBlock;
    LayoutRoundTrip(pc, r, c);
    var g, g' := SetBlock(Rowed(stripe, pc), r, c, b), Rowed(stripe[RowCol2Bid(pc, r, c) := b], pc);
    forall i | 0 <= i < Rows(pc)
      ensures g'[i] == g[i]
    {
      forall j | 0 <= j < Cols(pc)
        ensures g'[i][j] == g[i][j]
      {
        if RowCol2Bid(pc, i, j) == RowCol2Bid(pc, r, c) {
          BidsApart(pc, i, j, r, c);
        }
      }
    }
  }

  /** Stores one block of the stripe. */
  method StoreBlock<E>(stripe: array<Block<E>>, pc: Params, r: nat, c: nat, b: Block<E>)
    requires stripe.Length == BlockCount(pc) && r < Rows(pc) && c < Cols(pc)
    modifies stripe
    ensures Rowed(stripe[..], pc) == SetBlock(old(Rowed(stripe[..], pc)), r, c, b)
  {
    hide *;
    WriteBlock(stripe[..], pc, r, c, b);
    ghost var before := stripe[..];
    stripe[RowCol2Bid(pc, r, c)] := b;
    assert stripe[..] == before[RowCol2Bid(pc, r, c) := b];
  }

  // Encoding.

  /** The first k2 rows, or the data blocks alone, are the same in both grids. */
  ghost predicate SameTop<E>(now: seq<seq<E>>, before: seq<seq<E>>, pc: Params, cols: nat)
    requires IsTable(now, Rows(pc), Cols(pc)) && IsTable(before, Rows(pc), Cols(pc)) && cols <= Cols(pc)
  {
    forall r, c :: 0 <= r < pc.k2 && 0 <= c < cols ==> now[r][c] == before[r][c]
  }

  /** In the parity rows the cells from column `col` on are the same. */
  ghost predicate SameBelow<E>(now: seq<seq<E>>, before: seq<seq<E>>, pc: Params, col: nat)
    requires IsTable(now, Rows(pc), Cols(pc)) && IsTable(before, Rows(pc), Cols(pc))
  {
    forall r, c :: pc.k2 <= r < Rows(pc) && col <= c < Cols(pc) ==> now[r][c] == before[r][c]
  }

  /** The first j parities of row r are in place. */
  ghost predicate RowBegun<E>(f: Field<E>, codes: Codes<E>, pc: Params, g: seq<seq<Block<E>>>, size: nat, r: nat, j: nat)
    requires CodesFit(codes, pc) && GridFits(g, pc, size) && r < pc.k2 && j <= pc.m1
  {
    forall b :: 0 <= b < j ==> g[r][pc.k1 + b] == CodingBlock(f, codes.row[b], g[r][..pc.k1], size)
  }

  ghost predicate ColBegun<E>(f: Field<E>, codes: Codes<E>, pc: Params, g: seq<seq<Block<E>>>, size: nat, c: nat, j: nat)
    requires CodesFit(codes, pc) && GridFits(g, pc, size) && c < Cols(pc) && j <= pc.m2
  {
    forall b :: 0 <= b < j ==> g[pc.k2 + b][c] == CodingBlock(f, codes.col[b], Column(g[..pc.k2], c), size)
  }

  lemma RowParityStored<E>(f: Field<E>, codes: Codes<E>, pc: Params, g: seq<seq<Block<E>>>, size: nat, r: nat, j: nat)
    requires CodesFit(codes, pc) && GridFits(g, pc, size) && r < pc.k2 && j < pc.m1
    requires RowsEncoded(f, codes, pc, g, size, r) && RowBegun(f, codes, pc, g, size, r, j)
    ensures var g' := SetBlock(g, r, pc.k1 + j, CodingBlock(f, codes.row[j], g[r][..pc.k1], size));
            var next := j + 1;
            && GridFits(g', pc, size) && SameTop(g', g, pc, pc.k1) && SameBelow(g', g, pc, 0) && g'[r][..pc.k1] == g[r][..pc.k1]
            && RowsEncoded(f, codes, pc, g', size, r) && RowBegun(f, codes, pc, g', size, r, next)
  {
    var g' := SetBlock(g, r, pc.k1 + j, CodingBlock(f, codes.row[j], g[r][..pc.k1], size));
    assert g'[r][..pc.k1] == g[r][..pc.k1];
  }

  lemma ColParityStored<E>(f: Field<E>, codes: Codes<E>, pc: Params, g: seq<seq<Block<E>>>, size: nat, c: nat, j: nat)
    requires CodesFit(codes, pc) && GridFits(g, pc, size) && c < Cols(pc) && j < pc.m2
    requires ColsEncoded(f, codes, pc, g, size, c) && ColBegun(f, codes, pc, g, size, c, j)
    ensures var g' := SetBlock(g, pc.k2 + j, c, CodingBlock(f, codes.col[j], Column(g[..pc.k2], c), size));
            var next := j + 1;
            && GridFits(g', pc, size) && g'[..pc.k2] == g[..pc.k2] && SameBelow(g', g, pc, c + 1)
            && ColsEncoded(f, codes, pc, g', size, c) && ColBegun(f, codes, pc, g', size, c, next)
  {
    var g' := SetBlock(g, pc.k2 + j, c, CodingBlock(f, codes.col[j], Column(g[..pc.k2], c), size));
    assert g'[..pc.k2] == g[..pc.k2];
  }

  /** Encodes the rows of data blocks. */
  method EncodeRows<E>(f: Field<E>, codes: Codes<E>, pc: Params, stripe: array<Block<E>>, size: nat)
    requires stripe.Length == BlockCount(pc) && CodesFit(codes, pc) && GridFits(Rowed(stripe[..], pc), pc, size)
    modifies stripe
    ensures GridFits(Rowed(stripe[..], pc), pc, size)
    ensures SameTop(Rowed(stripe[..], pc), old(Rowed(stripe[..], pc)), pc, pc.k1)
    ensures SameBelow(Rowed(stripe[..], pc), old(Rowed(stripe[..], pc)), pc, 0)
    ensures RowsEncoded(f, codes, pc, Rowed(stripe[..], pc), size, pc.k2)
  {
    hide RowCol2Bid, BlockCount, Rowed, SetBlock;
    ghost var start := Rowed(stripe[..], pc);
    for i := 0 to pc.k2
      invariant GridFits(Rowed(stripe[..], pc), pc, size) && SameTop(Rowed(stripe[..], pc), start, pc, pc.k1)
      invariant SameBelow(Rowed(stripe[..], pc), start, pc, 0)
      invariant RowsEncoded(f, codes, pc, Rowed(stripe[..], pc), size, i)
    {
      var data := Rowed(stripe[..], pc)[i][..pc.k1];
      for j := 0 to pc.m1
        invariant GridFits(Rowed(stripe[..], pc), pc, size) && SameTop(Rowed(stripe[..], pc), start, pc, pc.k1)
        invariant SameBelow(Rowed(stripe[..], pc), start, pc, 0)
        invariant RowsEncoded(f, codes, pc, Rowed(stripe[..], pc), size, i)
        invariant RowBegun(f, codes, pc, Rowed(stripe[..], pc), size, i, j)
        invariant Rowed(stripe[..], pc)[i][..pc.k1] == data
      {
        RowParityStored(f, codes, pc, Rowed(stripe[..], pc), size, i, j);
        StoreBlock(stripe, pc, i, pc.k1 + j, CodingBlock(f, codes.row[j], data, size));
      }
    }
  }

  /** Encodes the first `cols` columns; beyond k1 they hold row parities. */
  method EncodeColumns<E>(f: Field<E>, codes: Codes<E>, pc: Params, stripe: array<Block<E>>, size: nat, cols: nat)
    requires stripe.Length == BlockCount(pc) && CodesFit(codes, pc) && GridFits(Rowed(stripe[..], pc), pc, size)
    requires cols <= Cols(pc)
    modifies stripe
    ensures GridFits(Rowed(stripe[..], pc), pc, size)
    ensures Rowed(stripe[..], pc)[..pc.k2] == old(Rowed(stripe[..], pc))[..pc.k2]
    ensures SameBelow(Rowed(stripe[..], pc), old(Rowed(stripe[..], pc)), pc, cols)
    ensures ColsEncoded(f, codes, pc, Rowed(stripe[..], pc), size, cols)
  {
    hide RowCol2Bid, BlockCount, Rowed, SetBlock;
    ghost var start := Rowed(stripe[..], pc);
    for i := 0 to cols
      invariant GridFits(Rowed(stripe[..], pc), pc, size) && Rowed(stripe[..], pc)[..pc.k2] == start[..pc.k2]
      invariant SameBelow(Rowed(stripe[..], pc), start, pc, i)
      invariant ColsEncoded(f, codes, pc, Rowed(stripe[..], pc), size, i)
    {
      var data := Column(Rowed(stripe[..], pc)[..pc.k2], i);
      for j := 0 to pc.m2
        invariant GridFits(Rowed(stripe[..], pc), pc, size) && Rowed(stripe[..], pc)[..pc.k2] == start[..pc.k2]
        invariant SameBelow(Rowed(stripe[..], pc), start, pc, i + 1)
        invariant ColsEncoded(f, codes, pc, Rowed(stripe[..], pc), size, i)
        invariant ColBegun(f, codes, pc, Rowed(stripe[..], pc), size, i, j)
        invariant Column(Rowed(stripe[..], pc)[..pc.k2], i) == data
      {
        ColParityStored(f, codes, pc, Rowed(stripe[..], pc), size, i, j);
        StoreBlock(stripe, pc, pc.k2 + j, i, CodingBlock(f, codes.col[j], data, size));
      }
    }
  }

  lemma RowsKeptByColumns<E>(f: Field<E>, codes: Codes<E>, pc: Params, g: seq<seq<Block<E>>>, g': seq<seq<Block<E>>>, size: nat)
    requires CodesFit(codes, pc) && GridFits(g, pc, size) && GridFits(g', pc, size) && g'[..pc.k2] == g[..pc.k2]
    requires RowsEncoded(f, codes, pc, g, size, pc.k2)
    ensures RowsEncoded(f, codes, pc, g', size, pc.k2) && SameTop(g', g, pc, pc.k1)
  {
    forall r | 0 <= r < pc.k2
      ensures g'[r] == g[r]
    {
      assert g'[..pc.k2][r] == g'[r] && g[..pc.k2][r] == g[r];
    }
  }

  /**
   Fills in all the parity blocks of a stripe, leaving the data. Every row and every column of a plain
   product code becomes a codeword, though parity rows are never passed to the row encoder; without
   global parities the same holds of the data rows and the data columns, and their corner is left alone.
   */
  method Encode<E(!new)>(f: Field<E>, codes: Codes<E>, pc: Params, hv: bool, stripe: array<Block<E>>, size: nat)
    requires Laws(f) && CodesFit(codes, pc)
    requires stripe.Length == BlockCount(pc) && GridFits(Rowed(stripe[..], pc), pc, size)
    modifies stripe
    ensures forall r :: 0 <= r < RepairableRows(pc, hv) ==> RowIsCodeword(f, codes, pc, Rowed(stripe[..], pc), size, r)
    ensures forall c :: 0 <= c < RepairableCols(pc, hv) ==> ColIsCodeword(f, codes, pc, Rowed(stripe[..], pc), size, c)
    ensures IsPcCodeword(f, codes, pc, ShapeOf(pc, hv), Rowed(stripe[..], pc), size)
    ensures SameTop(Rowed(stripe[..], pc), old(Rowed(stripe[..], pc)), pc, pc.k1)
    ensures hv ==> SameBelow(Rowed(stripe[..], pc), old(Rowed(stripe[..], pc)), pc, pc.k1)
  {
    hide RowCol2Bid, BlockCount, Rowed, SetBlock, RowIsCodeword, ColIsCodeword, RowsEncoded, ColsEncoded;
    var sh := ShapeOf(pc, hv);
    assert sh.peelRows == RepairableRows(pc, hv) && sh.peelCols == RepairableCols(pc, hv);
    EncodeRows(f, codes, pc, stripe, size);
    ghost var mid := Rowed(stripe[..], pc);
    EncodeColumns(f, codes, pc, stripe, size, sh.peelCols);
    ghost var g := Rowed(stripe[..], pc);
    RowsKeptByColumns(f, codes, pc, mid, g, size);
    forall r | 0 <= r < sh.peelRows
      ensures RowIsCodeword(f, codes, pc, g, size, r)
    {
      EncodedRowIsCodeword(f, codes, pc, g, size, r);
    }
    forall c | 0 <= c < sh.peelCols
      ensures ColIsCodeword(f, codes, pc, g, size, c)
    {
      EncodedColIsCodeword(f, codes, pc, g, size, sh.peelCols, c);
    }
  }

  // Decoding.

  /** Outside the failed cells the grid holds the encoded stripe. */
  ghost predicate Intact<E>(g: seq<seq<E>>, truth: seq<seq<E>>, failed: Grid, sh: Shape) {
    && Fits(failed, sh) && IsTable(g, sh.rows, sh.cols) && IsTable(truth, sh.rows, sh.cols)
    && forall r, c :: 0 <= r < sh.rows && 0 <= c < sh.cols && !failed[r][c] ==> g[r][c] == truth[r][c]
  }

  /** The failed positions of a line, in ascending order. */
  method ErasureList(failed: seq<bool>) returns (erased: seq<nat>)
    ensures erased == Marked(failed)
  {
    erased := [];
    for j := 0 to |failed|
      invariant erased == Marked(failed[..j])
    {
      assert failed[..j + 1][..j] == failed[..j];
      if failed[j] {
        erased := erased + [j];
      }
    }
    assert failed[..|failed|] == failed;
  }

  /** Decodes column c, writing the failed blocks. */
  method DecodeColumn<E>(stripe: array<Block<E>>, pc: Params, failed: Grid, c: nat, decode: Decoder<E>,
                         ghost truth: seq<seq<Block<E>>>)
    requires stripe.Length == BlockCount(pc) && |failed| == Rows(pc) && c < Cols(pc)
    requires forall r :: 0 <= r < Rows(pc) ==> |failed[r]| == Cols(pc)
    requires IsTable(truth, Rows(pc), Cols(pc))
    requires decode(Column(Rowed(stripe[..], pc), c), Marked(Col(failed, c))) == Column(truth, c)
    modifies stripe
    ensures forall i, j :: 0 <= i < Rows(pc) && 0 <= j < Cols(pc) ==>
              Rowed(stripe[..], pc)[i][j]
              == if j == c && failed[i][c] then truth[i][c] else old(Rowed(stripe[..], pc))[i][j]
  {
    hide RowCol2Bid, BlockCount, Rowed, SetBlock;
    ghost var start := Rowed(stripe[..], pc);
    var erased := ErasureList(Col(failed, c));
    var fixed := decode(Column(Rowed(stripe[..], pc), c), erased);
    for r := 0 to Rows(pc)
      invariant forall i, j :: 0 <= i < Rows(pc) && 0 <= j < Cols(pc) ==>
                  Rowed(stripe[..], pc)[i][j] == if j == c && failed[i][c] && i < r then truth[i][c] else start[i][j]
    {
      if failed[r][c] {
        StoreBlock(stripe, pc, r, c, fixed[r]);
      }
    }
  }

  method DecodeRow<E>(stripe: array<Block<E>>, pc: Params, failed: Grid, r: nat, decode: Decoder<E>,
                      ghost truth: seq<seq<Block<E>>>)
    requires stripe.Length == BlockCount(pc) && |failed| == Rows(pc) && r < Rows(pc) && |failed[r]| == Cols(pc)
    requires IsTable(truth, Rows(pc), Cols(pc))
    requires decode(Rowed(stripe[..], pc)[r], Marked(failed[r])) == truth[r]
    modifies stripe
    ensures forall i :: 0 <= i < Rows(pc) && i != r ==> Rowed(stripe[..], pc)[i] == old(Rowed(stripe[..], pc))[i]
    ensures forall j :: 0 <= j < Cols(pc) ==>
              Rowed(stripe[..], pc)[r][j] == if failed[r][j] then truth[r][j] else old(Rowed(stripe[..], pc))[r][j]
  {
    hide RowCol2Bid, BlockCount, Rowed;
    ghost var start := Rowed(stripe[..], pc);
    var erased := ErasureList(failed[r]);
    var fixed := decode(Rowed(stripe[..], pc)[r], erased);
    for c := 0 to Cols(pc)
      invariant forall i :: 0 <= i < Rows(pc) && i != r ==> Rowed(stripe[..], pc)[i] == start[i]
      invariant forall j :: 0 <= j < Cols(pc) ==>
                  Rowed(stripe[..], pc)[r][j] == if failed[r][j] && j < c then truth[r][j] else start[r][j]
    {
      if failed[r][c] {
        StoreBlock(stripe, pc, r, c, fixed[c]);
      }
    }
  }

  /** What decoding is given: the encoded stripe it should restore, and decoders for its lines. */
  ghost predicate Decodes<E(!new)>(f: Field<E>, codes: Codes<E>, pc: Params, sh: Shape, size: nat,
                                   rowDecode: Decoder<E>, colDecode: Decoder<E>, truth: seq<seq<Block<E>>>) {
    && CodesFit(codes, pc) && ForCode(sh, pc) && sh.perRow == pc.m1 && sh.perCol == pc.m2 && GridFits(truth, pc, size)
    && IsPcCodeword(f, codes, pc, sh, truth, size)
    && Corrects(f, codes.row, pc.k1, size, rowDecode) && Corrects(f, codes.col, pc.k2, size, colDecode)
  }

  lemma ColumnComesBack<E(!new)>(f: Field<E>, codes: Codes<E>, pc: Params, sh: Shape, size: nat, rowDecode: Decoder<E>,
                                 colDecode: Decoder<E>, truth: seq<seq<Block<E>>>, g: seq<seq<Block<E>>>, l: Ledger, c: nat)
    requires Decodes(f, codes, pc, sh, size, rowDecode, colDecode, truth) && Counted(l, sh)
    requires Intact(g, truth, l.failed, sh) && c < sh.peelCols && l.colCnt[c] <= sh.perCol
    ensures colDecode(Column(g, c), Marked(Col(l.failed, c))) == Column(truth, c)
  {
    hide IsCodeword, Corrects, Recovers;
    assert ColIsCodeword(f, codes, pc, truth, size, c);
    LineComesBack(f, codes.col, pc.k2, size, colDecode, Column(truth, c), Column(g, c), Col(l.failed, c));
  }

  lemma RowComesBack<E(!new)>(f: Field<E>, codes: Codes<E>, pc: Params, sh: Shape, size: nat, rowDecode: Decoder<E>,
                              colDecode: Decoder<E>, truth: seq<seq<Block<E>>>, g: seq<seq<Block<E>>>, l: Ledger, r: nat)
    requires Decodes(f, codes, pc, sh, size, rowDecode, colDecode, truth) && Counted(l, sh)
    requires Intact(g, truth, l.failed, sh) && r < sh.peelRows && l.rowCnt[r] <= sh.perRow
    ensures rowDecode(g[r], Marked(l.failed[r])) == truth[r]
  {
    hide IsCodeword, Corrects, Recovers;
    assert RowIsCodeword(f, codes, pc, truth, size, r);
    LineComesBack(f, codes.row, pc.k1, size, rowDecode, truth[r], g[r], l.failed[r]);
  }

  /** A decoded column holds the encoded stripe throughout. */
  lemma IntactAfterColumn<E>(g: seq<seq<E>>, g': seq<seq<E>>, truth: seq<seq<E>>, failed: Grid, sh: Shape, c: nat)
    requires Intact(g, truth, failed, sh) && IsTable(g', sh.rows, sh.cols) && c < sh.cols
    requires forall i, j :: 0 <= i < sh.rows && 0 <= j < sh.cols ==>
               g'[i][j] == if j == c && failed[i][c] then truth[i][c] else g[i][j]
    ensures Intact(g', truth, ClearCol(failed, sh, c), sh)
  {
  }

  lemma IntactAfterRow<E>(g: seq<seq<E>>, g': seq<seq<E>>, truth: seq<seq<E>>, failed: Grid, sh: Shape, r: nat)
    requires Intact(g, truth, failed, sh) && IsTable(g', sh.rows, sh.cols) && r < sh.rows
    requires forall i :: 0 <= i < sh.rows && i != r ==> g'[i] == g[i]
    requires forall j :: 0 <= j < sh.cols ==> g'[r][j] == if failed[r][j] then truth[r][j] else g[r][j]
    ensures Intact(g', truth, ClearRow(failed, sh, r), sh)
  {
  }

  /** One pass over the columns, decoding each repairable one that is within its limit. */
  method DecodeColumns<E(!new)>(f: Field<E>, codes: Codes<E>, pc: Params, sh: Shape, stripe: array<Block<E>>, size: nat,
                                rowDecode: Decoder<E>, colDecode: Decoder<E>, l0: Ledger,
                                ghost truth: seq<seq<Block<E>>>, ghost g: Grid) returns (l: Ledger)
    requires stripe.Length == BlockCount(pc) && Peels(l0, g, sh)
    requires Decodes(f, codes, pc, sh, size, rowDecode, colDecode, truth)
    requires Intact(Rowed(stripe[..], pc), truth, l0.failed, sh)
    modifies stripe
    ensures Peels(l, g, sh) && l.num <= l0.num && ColumnsDone(l, sh, sh.peelCols)
    ensures Intact(Rowed(stripe[..], pc), truth, l.failed, sh)
  {
    hide RowCol2Bid, BlockCount, Rowed, Decodes, Peels, Counted, Fits, ClearCol, Intact;
    l := l0;
    PeelsMeans(l0, g, sh);
    DecodesMeans(f, codes, pc, sh, size, rowDecode, colDecode, truth);
    for i := 0 to sh.peelCols
      invariant Peels(l, g, sh) && l.num <= l0.num && Counted(l, sh) && Fits(l.failed, sh) && ColumnsDone(l, sh, i)
      invariant |l.colCnt| == sh.cols && forall c :: 0 <= c < sh.cols ==> l.colCnt[c] >= 0
      invariant Intact(Rowed(stripe[..], pc), truth, l.failed, sh)
    {
      if l.colCnt[i] <= sh.perCol && l.colCnt[i] > 0 {
        ghost var before := l;
        ColumnComesBack(f, codes, pc, sh, size, rowDecode, colDecode, truth, Rowed(stripe[..], pc), l, i);
        GridSize(l.failed, sh, pc);
        ghost var blocks := Rowed(stripe[..], pc);
        DecodeColumn(stripe, pc, l.failed, i, colDecode, truth);
        IntactAfterColumn(blocks, Rowed(stripe[..], pc), truth, l.failed, sh, i);
        var cleared;
        l, cleared := ClearColumn(pc, l, sh, i);
        PeelColStep(before, l, g, sh, i);
        OtherColumnsSame(before, l, sh, i);
        PeelsMeans(l, g, sh);
      }
    }
  }

  lemma PeelsMeans(l: Ledger, g: Grid, sh: Shape)
    requires Peels(l, g, sh)
    ensures ShapeOk(sh) && Fits(g, sh) && Counted(l, sh) && Fits(l.failed, sh)
    ensures |l.rowCnt| == sh.rows && (forall r :: 0 <= r < sh.rows ==> l.rowCnt[r] >= 0)
    ensures |l.colCnt| == sh.cols && (forall c :: 0 <= c < sh.cols ==> l.colCnt[c] >= 0)
    ensures l.num >= 0
  {
  }

  lemma DecodesMeans<E(!new)>(f: Field<E>, codes: Codes<E>, pc: Params, sh: Shape, size: nat, rowDecode: Decoder<E>,
                              colDecode: Decoder<E>, truth: seq<seq<Block<E>>>)
    requires Decodes(f, codes, pc, sh, size, rowDecode, colDecode, truth)
    ensures ForCode(sh, pc) && IsTable(truth, Rows(pc), Cols(pc))
  {
  }

  lemma GridSize(g: Grid, sh: Shape, pc: Params)
    requires Fits(g, sh) && ForCode(sh, pc)
    ensures |g| == Rows(pc) && forall r :: 0 <= r < Rows(pc) ==> |g[r]| == Cols(pc)
  {
  }

  /** One pass over the rows; progress is the last row decoded, or -1. */
  method DecodeRows<E(!new)>(f: Field<E>, codes: Codes<E>, pc: Params, sh: Shape, stripe: array<Block<E>>, size: nat,
                             rowDecode: Decoder<E>, colDecode: Decoder<E>, l0: Ledger,
                             ghost truth: seq<seq<Block<E>>>, ghost g: Grid) returns (l: Ledger, maxRow: int)
    requires stripe.Length == BlockCount(pc) && Peels(l0, g, sh)
    requires Decodes(f, codes, pc, sh, size, rowDecode, colDecode, truth)
    requires Intact(Rowed(stripe[..], pc), truth, l0.failed, sh)
    modifies stripe
    ensures Peels(l, g, sh) && l.num <= l0.num
    ensures maxRow != -1 ==> l.num < l0.num
    ensures maxRow == -1 ==> l == l0 && forall r :: 0 <= r < sh.peelRows ==> l.rowCnt[r] == 0 || l.rowCnt[r] > sh.perRow
    ensures Intact(Rowed(stripe[..], pc), truth, l.failed, sh)
  {
    hide RowCol2Bid, BlockCount, Rowed, Decodes, Peels, Counted, Fits, ClearRow, Intact;
    l, maxRow := l0, -1;
    PeelsMeans(l0, g, sh);
    DecodesMeans(f, codes, pc, sh, size, rowDecode, colDecode, truth);
    for i := 0 to sh.peelRows
      invariant Peels(l, g, sh) && l.num <= l0.num && Counted(l, sh) && Fits(l.failed, sh)
      invariant |l.rowCnt| == sh.rows && maxRow >= -1 && forall r :: 0 <= r < sh.rows ==> l.rowCnt[r] >= 0
      invariant maxRow != -1 ==> l.num < l0.num
      invariant maxRow == -1 ==> l == l0 && forall r :: 0 <= r < i ==> l.rowCnt[r] == 0 || l.rowCnt[r] > sh.perRow
      invariant Intact(Rowed(stripe[..], pc), truth, l.failed, sh)
    {
      if l.rowCnt[i] <= sh.perRow && l.rowCnt[i] > 0 {
        maxRow := i;
        ghost var before := l;
        RowComesBack(f, codes, pc, sh, size, rowDecode, colDecode, truth, Rowed(stripe[..], pc), l, i);
        GridSize(l.failed, sh, pc);
        ghost var blocks := Rowed(stripe[..], pc);
        DecodeRow(stripe, pc, l.failed, i, rowDecode, truth);
        IntactAfterRow(blocks, Rowed(stripe[..], pc), truth, l.failed, sh, i);
        var cleared;
        l, cleared := ClearRowCells(pc, l, sh, i);
        PeelRowStep(before, l, g, sh, i);
        PeelsMeans(l, g, sh);
      }
    }
  }

  /** The failures that peeling cannot clear: the stopping set that contains all the others. */
  ghost predicate LargestStoppingSet(left: Grid, g: Grid, sh: Shape)
    requires ShapeOk(sh) && Fits(g, sh)
  {
    IsStuckSet(left, g, sh) && KeepsStuck(left, g, sh)
  }

  lemma StuckIsLargest(l: Ledger, g: Grid, sh: Shape)
    requires Peels(l, g, sh)
    requires forall r :: 0 <= r < sh.peelRows ==> l.rowCnt[r] == 0 || l.rowCnt[r] > sh.perRow
    requires forall c :: 0 <= c < sh.peelCols ==> l.colCnt[c] == 0 || l.colCnt[c] > sh.perCol
    ensures LargestStoppingSet(l.failed, g, sh)
  {
  }

  lemma ClearedIsLargest(l: Ledger, g: Grid, sh: Shape)
    requires Peels(l, g, sh) && l.num == 0
    ensures LargestStoppingSet(l.failed, g, sh) && forall r, c :: 0 <= r < sh.rows && 0 <= c < sh.cols ==> !l.failed[r][c]
  {
    forall r | 0 <= r < sh.rows
      ensures l.rowCnt[r] == 0 && forall c :: 0 <= c < sh.cols ==> !l.failed[r][c]
    {
      TotalAtLeastRow(l.failed, r);
      CountZero(l.failed[r]);
    }
    forall c | 0 <= c < sh.cols
      ensures l.colCnt[c] == 0
    {
      CountZero(Col(l.failed, c));
    }
  }

  /**
   Restores the erased blocks of a stripe by peeling. Every block outside the largest stopping set of the
   erasures comes back, so decoding succeeds exactly when no erased blocks are stuck.
   */
  method Decode<E(!new)>(f: Field<E>, codes: Codes<E>, pc: Params, hv: bool, stripe: array<Block<E>>, size: nat,
                         erasures: seq<nat>, rowDecode: Decoder<E>, colDecode: Decoder<E>,
                         ghost truth: seq<seq<Block<E>>>) returns (ok: bool, ghost left: Grid)
    requires stripe.Length == BlockCount(pc) && FailuresOk(pc, erasures)
    requires Decodes(f, codes, pc, ShapeOf(pc, hv), size, rowDecode, colDecode, truth)
    requires Intact(Rowed(stripe[..], pc), truth, Failed(pc, erasures), ShapeOf(pc, hv))
    modifies stripe
    ensures ok <==> !HasStuckIds(pc, hv, erasures)
    ensures LargestStoppingSet(left, Failed(pc, erasures), ShapeOf(pc, hv))
    ensures Intact(Rowed(stripe[..], pc), truth, left, ShapeOf(pc, hv))
    ensures ok ==> Rowed(stripe[..], pc) == truth
  {
    hide RowCol2Bid, BlockCount, Rowed, Decodes, Peels, Counted, Fits, Intact, ShapeOf, StuckIds, HasStuckIds;
    var sh := ShapeOf(pc, hv);
    StoppingByIds(pc, hv, erasures);
    DecodesMeans(f, codes, pc, sh, size, rowDecode, colDecode, truth);
    ghost var g := Failed(pc, erasures);
    var l := MarkFailures(pc, sh, erasures);
    while l.num > 0
      invariant Peels(l, g, sh) && Intact(Rowed(stripe[..], pc), truth, l.failed, sh)
      decreases l.num
    {
      l := DecodeColumns(f, codes, pc, sh, stripe, size, rowDecode, colDecode, l, truth, g);
      if l.num == 0 {
        break;
      }
      var maxRow;
      l, maxRow := DecodeRows(f, codes, pc, sh, stripe, size, rowDecode, colDecode, l, truth, g);
      if maxRow == -1 {
        PeelsMeans(l, g, sh);
        StuckMeansStopping(l, g, sh);
        StuckIsLargest(l, g, sh);
        return false, l.failed;
      }
    }
    PeelsMeans(l, g, sh);
    ClearedMeansNone(l, g, sh);
    ClearedIsLargest(l, g, sh);
    AllRestored(Rowed(stripe[..], pc), truth, l.failed, sh);
    return true, l.failed;
  }

  lemma AllRestored<E>(g: seq<seq<E>>, truth: seq<seq<E>>, failed: Grid, sh: Shape)
    requires Intact(g, truth, failed, sh)
    requires forall r, c :: 0 <= r < sh.rows && 0 <= c < sh.cols ==> !failed[r][c]
    ensures g == truth
  {
    forall r | 0 <= r < sh.rows
      ensures g[r] == truth[r]
    {
    }
  }
}

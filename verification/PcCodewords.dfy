/** The two-dimensional code: a grid of blocks whose rows and columns are codewords. */
module PcCodewords {
  import opened Listing
  import opened Fields
  import opened Sums
  import opened Matrices
  import opened ErasureCode
  import opened PcLayout
  import opened Peeling
  import opened PcRepair

  /** The row code's m1-by-k1 and the column code's m2-by-k2 encoding matrices. */
  datatype Codes<E> = Codes(row: seq<seq<E>>, col: seq<seq<E>>)

  ghost predicate CodesFit<E>(codes: Codes<E>, pc: Params) {
    IsTable(codes.row, pc.m1, pc.k1) && IsTable(codes.col, pc.m2, pc.k2)
  }

  /** The blocks of a stripe by row and column. */
  ghost predicate GridFits<E>(g: seq<seq<Block<E>>>, pc: Params, size: nat) {
    IsTable(g, Rows(pc), Cols(pc)) && forall r, c :: 0 <= r < Rows(pc) && 0 <= c < Cols(pc) ==> |g[r][c]| == size
  }

  /** The blocks of a stripe, stored by block id, by row and column. */
  function Rowed<E>(stripe: seq<Block<E>>, pc: Params): (g: seq<seq<Block<E>>>)
    requires |stripe| == BlockCount(pc)
    ensures IsTable(g, Rows(pc), Cols(pc))
    ensures forall r, c :: 0 <= r < Rows(pc) && 0 <= c < Cols(pc) ==>
              RowCol2Bid(pc, r, c) < |stripe| && g[r][c] == stripe[RowCol2Bid(pc, r, c)]
  {
    hide RowCol2Bid, BlockCount;
    forall r: nat, c: nat | r < Rows(pc) && c < Cols(pc) { LayoutRoundTrip(pc, r, c); }
    seq(Rows(pc), r requires 0 <= r < Rows(pc) =>
      seq(Cols(pc), c requires 0 <= c < Cols(pc) => stripe[RowCol2Bid(pc, r, c)]))
  }

  /** A line whose last blocks are the encoding, by m, of its first k. */
  ghost predicate IsCodeword<E>(f: Field<E>, m: seq<seq<E>>, k: nat, line: seq<Block<E>>, size: nat) {
    && IsTable(m, |m|, k) && IsTable(line, k + |m|, size)
    && forall j :: 0 <= j < |m| ==> line[k + j] == CodingBlock(f, m[j], line[..k], size)
  }

  ghost predicate RowIsCodeword<E>(f: Field<E>, codes: Codes<E>, pc: Params, g: seq<seq<Block<E>>>, size: nat, r: nat) {
    && CodesFit(codes, pc) && GridFits(g, pc, size) && r < Rows(pc)
    && IsCodeword(f, codes.row, pc.k1, g[r], size)
  }

  ghost predicate ColIsCodeword<E>(f: Field<E>, codes: Codes<E>, pc: Params, g: seq<seq<Block<E>>>, size: nat, c: nat) {
    && CodesFit(codes, pc) && GridFits(g, pc, size) && c < Cols(pc)
    && IsCodeword(f, codes.col, pc.k2, Column(g, c), size)
  }

  /** Every line the code repairs by is a codeword. */
  ghost predicate IsPcCodeword<E>(f: Field<E>, codes: Codes<E>, pc: Params, sh: Shape, g: seq<seq<Block<E>>>, size: nat) {
    && ForCode(sh, pc)
    && (forall r :: 0 <= r < sh.peelRows ==> RowIsCodeword(f, codes, pc, g, size, r))
    && (forall c :: 0 <= c < sh.peelCols ==> ColIsCodeword(f, codes, pc, g, size, c))
  }

  /** The row parities of the first upTo rows, and the column parities of the first upTo columns, are in place. */
  ghost predicate RowsEncoded<E>(f: Field<E>, codes: Codes<E>, pc: Params, g: seq<seq<Block<E>>>, size: nat, upTo: nat)
    requires CodesFit(codes, pc) && GridFits(g, pc, size) && upTo <= pc.k2
  {
    forall r, j :: 0 <= r < upTo && 0 <= j < pc.m1 ==> g[r][pc.k1 + j] == CodingBlock(f, codes.row[j], g[r][..pc.k1], size)
  }

  ghost predicate ColsEncoded<E>(f: Field<E>, codes: Codes<E>, pc: Params, g: seq<seq<Block<E>>>, size: nat, upTo: nat)
    requires CodesFit(codes, pc) && GridFits(g, pc, size) && upTo <= Cols(pc)
  {
    forall c, j :: 0 <= c < upTo && 0 <= j < pc.m2 ==>
      g[pc.k2 + j][c] == CodingBlock(f, codes.col[j], Column(g[..pc.k2], c), size)
  }

  /** Word p of the first rows of a grid. */
  ghost function Words<E>(g: seq<seq<Block<E>>>, rows: nat, cols: nat, size: nat, p: nat): (d: seq<seq<E>>)
    requires rows <= |g| && p < size && forall r :: 0 <= r < rows ==> cols <= |g[r]|
    requires forall r, c :: 0 <= r < rows && 0 <= c < cols ==> |g[r][c]| == size
    ensures IsTable(d, rows, cols)
    ensures forall r, c :: 0 <= r < rows && 0 <= c < cols ==> d[r][c] == g[r][c][p]
  {
    seq(rows, r requires 0 <= r < rows => seq(cols, c requires 0 <= c < cols => g[r][c][p]))
  }

  /** Down a row-parity column, each word is the row code's combination of the data words of its row. */
  lemma RowParityWords<E(!new)>(f: Field<E>, codes: Codes<E>, pc: Params, g: seq<seq<Block<E>>>, size: nat, b: nat, p: nat)
    requires Laws(f) && CodesFit(codes, pc) && GridFits(g, pc, size) && b < pc.m1 && p < size
    requires RowsEncoded(f, codes, pc, g, size, pc.k2)
    ensures MatVec(f, Words(g, pc.k2, pc.k1, size, p), codes.row[b]) == Column(Column(g[..pc.k2], pc.k1 + b), p)
  {
    var d, w := Words(g, pc.k2, pc.k1, size, p), codes.row[b];
    var down := Column(Column(g[..pc.k2], pc.k1 + b), p);
    forall t | 0 <= t < pc.k2
      ensures MatVec(f, d, w)[t] == down[t]
    {
      assert d[t] == Column(g[t][..pc.k1], p);
      DotCommutes(f, d[t], w);
      assert g[t][pc.k1 + b] == CodingBlock(f, w, g[t][..pc.k1], size);
    }
  }

  /** Along a column-parity row, each word is the column code's combination of the data words of its column. */
  lemma ColParityWords<E(!new)>(f: Field<E>, codes: Codes<E>, pc: Params, g: seq<seq<Block<E>>>, size: nat, upTo: nat,
                               a: nat, p: nat)
    requires CodesFit(codes, pc) && GridFits(g, pc, size) && a < pc.m2 && p < size
    requires pc.k1 <= upTo <= Cols(pc) && ColsEncoded(f, codes, pc, g, size, upTo)
    ensures MatMul(f, [codes.col[a]], Words(g, pc.k2, pc.k1, size, p), pc.k1)[0] == Column(g[pc.k2 + a][..pc.k1], p)
  {
    var d, u := Words(g, pc.k2, pc.k1, size, p), codes.col[a];
    var q, along := MatMul(f, [u], d, pc.k1)[0], Column(g[pc.k2 + a][..pc.k1], p);
    forall s | 0 <= s < pc.k1
      ensures q[s] == along[s]
    {
      assert Column(d, s) == Column(Column(g[..pc.k2], s), p);
      assert g[pc.k2 + a][s] == CodingBlock(f, u, Column(g[..pc.k2], s), size);
    }
  }

  /** One word of the interchange: encoding down a row-parity column is encoding along a column-parity row. */
  lemma InterchangeAtWord<E(!new)>(f: Field<E>, codes: Codes<E>, pc: Params, g: seq<seq<Block<E>>>, size: nat,
                                   upTo: nat, a: nat, b: nat, p: nat)
    requires Laws(f) && CodesFit(codes, pc) && GridFits(g, pc, size) && a < pc.m2 && b < pc.m1 && p < size
    requires RowsEncoded(f, codes, pc, g, size, pc.k2)
    requires pc.k1 <= upTo <= Cols(pc) && ColsEncoded(f, codes, pc, g, size, upTo)
    ensures Dot(f, codes.col[a], Column(Column(g[..pc.k2], pc.k1 + b), p))
            == Dot(f, codes.row[b], Column(g[pc.k2 + a][..pc.k1], p))
  {
    hide RowsEncoded, ColsEncoded;
    RowParityWords(f, codes, pc, g, size, b, p);
    ColParityWords(f, codes, pc, g, size, upTo, a, p);
    DotThrough(f, codes.col[a], Words(g, pc.k2, pc.k1, size, p), codes.row[b]);
    DotCommutes(f, Column(g[pc.k2 + a][..pc.k1], p), codes.row[b]);
  }

  /** Encoding the row parities down a column is encoding the column parities along a row. */
  lemma InterchangeAtBlock<E(!new)>(f: Field<E>, codes: Codes<E>, pc: Params, g: seq<seq<Block<E>>>, size: nat, upTo: nat,
                                    a: nat, b: nat)
    requires Laws(f) && CodesFit(codes, pc) && GridFits(g, pc, size) && a < pc.m2 && b < pc.m1
    requires RowsEncoded(f, codes, pc, g, size, pc.k2)
    requires pc.k1 <= upTo <= Cols(pc) && ColsEncoded(f, codes, pc, g, size, upTo)
    ensures CodingBlock(f, codes.col[a], Column(g[..pc.k2], pc.k1 + b), size)
            == CodingBlock(f, codes.row[b], g[pc.k2 + a][..pc.k1], size)
  {
    var viaCol := CodingBlock(f, codes.col[a], Column(g[..pc.k2], pc.k1 + b), size);
    var viaRow := CodingBlock(f, codes.row[b], g[pc.k2 + a][..pc.k1], size);
    forall p | 0 <= p < size
      ensures viaCol[p] == viaRow[p]
    {
      InterchangeAtWord(f, codes, pc, g, size, upTo, a, b, p);
    }
  }

  /**
   The block where a parity row meets a parity column is the same whether the column code encodes the
   row parities or the row code encodes the column parities.
   */
  lemma GlobalParitiesAgree<E(!new)>(f: Field<E>, codes: Codes<E>, pc: Params, g: seq<seq<Block<E>>>, size: nat,
                                     a: nat, b: nat)
    requires Laws(f) && CodesFit(codes, pc) && GridFits(g, pc, size) && a < pc.m2 && b < pc.m1
    requires RowsEncoded(f, codes, pc, g, size, pc.k2) && ColsEncoded(f, codes, pc, g, size, Cols(pc))
    ensures g[pc.k2 + a][pc.k1 + b] == CodingBlock(f, codes.row[b], g[pc.k2 + a][..pc.k1], size)
  {
    InterchangeAtBlock(f, codes, pc, g, size, Cols(pc), a, b);
    assert g[pc.k2 + a][pc.k1 + b] == CodingBlock(f, codes.col[a], Column(g[..pc.k2], pc.k1 + b), size);
  }

  /** With all the columns encoded every row, also a parity row, is a codeword. */
  lemma EncodedRowIsCodeword<E(!new)>(f: Field<E>, codes: Codes<E>, pc: Params, g: seq<seq<Block<E>>>, size: nat, r: nat)
    requires Laws(f) && CodesFit(codes, pc) && GridFits(g, pc, size) && r < Rows(pc)
    requires RowsEncoded(f, codes, pc, g, size, pc.k2)
    requires r < pc.k2 || ColsEncoded(f, codes, pc, g, size, Cols(pc))
    ensures RowIsCodeword(f, codes, pc, g, size, r)
  {
    forall j | 0 <= j < pc.m1
      ensures g[r][pc.k1 + j] == CodingBlock(f, codes.row[j], g[r][..pc.k1], size)
    {
      if r >= pc.k2 {
        GlobalParitiesAgree(f, codes, pc, g, size, r - pc.k2, j);
      }
    }
  }

  lemma EncodedColIsCodeword<E>(f: Field<E>, codes: Codes<E>, pc: Params, g: seq<seq<Block<E>>>, size: nat,
                                upTo: nat, c: nat)
    requires CodesFit(codes, pc) && GridFits(g, pc, size) && c < upTo <= Cols(pc)
    requires ColsEncoded(f, codes, pc, g, size, upTo)
    ensures ColIsCodeword(f, codes, pc, g, size, c)
  {
    assert Column(g, c)[..pc.k2] == Column(g[..pc.k2], c);
  }

  // Decoding one line.

  /** Repairs a damaged line, given the positions to recover. */
  type Decoder<!E> = (seq<Block<E>>, seq<nat>) -> seq<Block<E>>

  ghost predicate Recovers<E>(f: Field<E>, m: seq<seq<E>>, k: nat, size: nat, decode: Decoder<E>,
                              line: seq<Block<E>>, damaged: seq<Block<E>>, erased: seq<nat>)
  {
    IsCodeword(f, m, k, line, size) && |damaged| == |line| && NoRepeats(erased) && |erased| <= |m|
    && (forall i :: 0 <= i < |erased| ==> erased[i] < |line|)
    && (forall i :: 0 <= i < |line| && i !in erased ==> damaged[i] == line[i])
    ==> decode(damaged, erased) == line
  }

  /** The decoder of an MDS code: it restores every codeword with at most |m| erasures. */
  ghost predicate Corrects<E(!new)>(f: Field<E>, m: seq<seq<E>>, k: nat, size: nat, decode: Decoder<E>) {
    forall line, damaged, erased :: Recovers(f, m, k, size, decode, line, damaged, erased)
  }

  /** The positions that are marked, in ascending order. */
  function Marked(line: seq<bool>): (r: seq<nat>) {
    if line == [] then []
    else
      var n := |line| - 1;
      Marked(line[..n]) + (if line[n] then [n] else [])
  }

  lemma {:induction false} MarkedPositions(line: seq<bool>)
    ensures NoRepeats(Marked(line)) && |Marked(line)| == CountTrue(line)
    ensures forall i :: 0 <= i < |Marked(line)| ==> Marked(line)[i] < |line|
    ensures forall i :: 0 <= i < |line| ==> (i in Marked(line) <==> line[i])
  {
    if line != [] {
      MarkedPositions(line[..|line| - 1]);
    }
  }

  /** A line within its limit comes back whole. */
  lemma LineComesBack<E(!new)>(f: Field<E>, m: seq<seq<E>>, k: nat, size: nat, decode: Decoder<E>,
                               line: seq<Block<E>>, damaged: seq<Block<E>>, failed: seq<bool>)
    requires Corrects(f, m, k, size, decode) && IsCodeword(f, m, k, line, size)
    requires |damaged| == |failed| == |line| && CountTrue(failed) <= |m|
    requires forall i :: 0 <= i < |line| && !failed[i] ==> damaged[i] == line[i]
    ensures decode(damaged, Marked(failed)) == line
  {
    MarkedPositions(failed);
    assert Recovers(f, m, k, size, decode, line, damaged, Marked(failed));
  }
}

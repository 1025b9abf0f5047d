/** Where the blocks of a product-code stripe sit: block ids against rows and columns. */
module PcLayout {
  import opened RowMajor

  /** k2 data rows and m2 parity rows; k1 data columns and m1 parity columns. */
  datatype Params = Params(k1: nat, m1: nat, k2: nat, m2: nat)

  function Rows(pc: Params): nat { pc.k2 + pc.m2 }

  function Cols(pc: Params): nat { pc.k1 + pc.m1 }

  // The ids are dealt out area by area: data, row parities, column parities, global parities.

  function DataEnd(pc: Params): nat { pc.k2 * pc.k1 }

  function RowParityEnd(pc: Params): nat { DataEnd(pc) + pc.k2 * pc.m1 }

  function ColParityEnd(pc: Params): nat { RowParityEnd(pc) + pc.m2 * pc.k1 }

  function BlockCount(pc: Params): nat { ColParityEnd(pc) + pc.m2 * pc.m1 }

  function RowCol2Bid(pc: Params, row: nat, col: nat): nat {
    if row < pc.k2 && col < pc.k1 then Pos(row, col, pc.k1)
    else if row < pc.k2 && col >= pc.k1 then DataEnd(pc) + Pos(row, col - pc.k1, pc.m1)
    else if row >= pc.k2 && col < pc.k1 then RowParityEnd(pc) + Pos(row - pc.k2, col, pc.k1)
    else ColParityEnd(pc) + Pos(row - pc.k2, col - pc.k1, pc.m1)
  }

  /** The areas in the products the source writes them with. */
  lemma AreaSizes(pc: Params)
    ensures DataEnd(pc) == pc.k1 * pc.k2
    ensures RowParityEnd(pc) == (pc.k1 + pc.m1) * pc.k2
    ensures ColParityEnd(pc) == (pc.k1 + pc.m1) * pc.k2 + pc.k1 * pc.m2
    ensures BlockCount(pc) == (pc.k1 + pc.m1) * (pc.k2 + pc.m2)
  {
    assert (pc.k1 + pc.m1) * pc.k2 == pc.k1 * pc.k2 + pc.m1 * pc.k2;
    assert (pc.k1 + pc.m1) * (pc.k2 + pc.m2) == (pc.k1 + pc.m1) * pc.k2 + (pc.k1 + pc.m1) * pc.m2;
    assert (pc.k1 + pc.m1) * pc.m2 == pc.k1 * pc.m2 + pc.m1 * pc.m2;
  }

  /** Where a block of the stripe sits. */
  function Bid2RowCol(pc: Params, bid: nat): (rc: (nat, nat))
    requires bid < BlockCount(pc)
    ensures rc.0 < Rows(pc) && rc.1 < Cols(pc) && RowCol2Bid(pc, rc.0, rc.1) == bid
  {
    hide Pos, RowOf, ColOf;
    if bid < DataEnd(pc) then
      RowInBounds(bid, pc.k1, pc.k2);
      PosOfRowCol(bid, pc.k1);
      (RowOf(bid, pc.k1), ColOf(bid, pc.k1))
    else if bid < RowParityEnd(pc) then
      var t := bid - DataEnd(pc);
      RowInBounds(t, pc.m1, pc.k2);
      PosOfRowCol(t, pc.m1);
      (RowOf(t, pc.m1), ColOf(t, pc.m1) + pc.k1)
    else if bid < ColParityEnd(pc) then
      var t := bid - RowParityEnd(pc);
      RowInBounds(t, pc.k1, pc.m2);
      PosOfRowCol(t, pc.k1);
      (RowOf(t, pc.k1) + pc.k2, ColOf(t, pc.k1))
    else
      var t := bid - ColParityEnd(pc);
      RowInBounds(t, pc.m1, pc.m2);
      PosOfRowCol(t, pc.m1);
      (RowOf(t, pc.m1) + pc.k2, ColOf(t, pc.m1) + pc.k1)
  }

  lemma DataRoundTrip(pc: Params, row: nat, col: nat)
    requires row < pc.k2 && col < pc.k1
    ensures RowCol2Bid(pc, row, col) < DataEnd(pc)
    ensures Bid2RowCol(pc, RowCol2Bid(pc, row, col)) == (row, col)
  {
    hide Pos, RowOf, ColOf;
    PosBound(row, col, pc.k1, pc.k2);
    RowColOfPos(row, col, pc.k1);
  }

  lemma RowParityRoundTrip(pc: Params, row: nat, col: nat)
    requires row < pc.k2 && pc.k1 <= col < Cols(pc)
    ensures DataEnd(pc) <= RowCol2Bid(pc, row, col) < RowParityEnd(pc)
    ensures Bid2RowCol(pc, RowCol2Bid(pc, row, col)) == (row, col)
  {
    hide Pos, RowOf, ColOf, DataEnd;
    PosBound(row, col - pc.k1, pc.m1, pc.k2);
    RowColOfPos(row, col - pc.k1, pc.m1);
  }

  lemma ColParityRoundTrip(pc: Params, row: nat, col: nat)
    requires pc.k2 <= row < Rows(pc) && col < pc.k1
    ensures RowParityEnd(pc) <= RowCol2Bid(pc, row, col) < ColParityEnd(pc)
    ensures Bid2RowCol(pc, RowCol2Bid(pc, row, col)) == (row, col)
  {
    AreasInOrder(pc);
    hide Pos, RowOf, ColOf, DataEnd, RowParityEnd;
    PosBound(row - pc.k2, col, pc.k1, pc.m2);
    RowColOfPos(row - pc.k2, col, pc.k1);
  }

  lemma GlobalParityRoundTrip(pc: Params, row: nat, col: nat)
    requires pc.k2 <= row < Rows(pc) && pc.k1 <= col < Cols(pc)
    ensures ColParityEnd(pc) <= RowCol2Bid(pc, row, col) < BlockCount(pc)
    ensures Bid2RowCol(pc, RowCol2Bid(pc, row, col)) == (row, col)
  {
    AreasInOrder(pc);
    hide Pos, RowOf, ColOf, DataEnd, RowParityEnd, ColParityEnd;
    PosBound(row - pc.k2, col - pc.k1, pc.m1, pc.m2);
    RowColOfPos(row - pc.k2, col - pc.k1, pc.m1);
  }

  lemma AreasInOrder(pc: Params)
    ensures DataEnd(pc) <= RowParityEnd(pc) <= ColParityEnd(pc) <= BlockCount(pc)
  {
  }

  /** Every grid position has a block id in range, and that id leads back to the position. */
  lemma LayoutRoundTrip(pc: Params, row: nat, col: nat)
    requires row < Rows(pc) && col < Cols(pc)
    ensures RowCol2Bid(pc, row, col) < BlockCount(pc)
    ensures Bid2RowCol(pc, RowCol2Bid(pc, row, col)) == (row, col)
  {
    AreasInOrder(pc);
    if row < pc.k2 && col < pc.k1 {
      DataRoundTrip(pc, row, col);
    } else if row < pc.k2 {
      RowParityRoundTrip(pc, row, col);
    } else if col < pc.k1 {
      ColParityRoundTrip(pc, row, col);
    } else {
      GlobalParityRoundTrip(pc, row, col);
    }
  }

  /** Different positions have different block ids. */
  lemma BidsApart(pc: Params, row: nat, col: nat, row': nat, col': nat)
    requires row < Rows(pc) && col < Cols(pc) && row' < Rows(pc) && col' < Cols(pc)
    requires RowCol2Bid(pc, row, col) == RowCol2Bid(pc, row', col')
    ensures row == row' && col == col'
  {
    hide RowCol2Bid, Bid2RowCol;
    LayoutRoundTrip(pc, row, col);
    LayoutRoundTrip(pc, row', col');
  }
}

/**
 Merging x stripes of a plain product code side by side. Data blocks and column parities keep their blocks
 and move to new places; the row parities of every row are calculated anew.
 */
module PcMerge {
  import opened Listing
  import opened RowMajor
  import opened PcLayout
  import opened Stripes
  import opened MergeTables
  import opened MergeStore

  /** The code of the merged stripe: x times as many data columns. */
  function Wider(pc: Params, x: nat): Params { Params(x * pc.k1, pc.m1, pc.k2, pc.m2) }

  /** The block is kept: it is not in a row-parity column. */
  predicate Kept(pc: Params, bid: nat)
    requires bid < BlockCount(pc)
  {
    bid < pc.k1 * pc.k2 || ((pc.k1 + pc.m1) * pc.k2 <= bid < (pc.k1 + pc.m1) * pc.k2 + pc.k1 * pc.m2)
  }

  lemma KeptColumns(pc: Params, bid: nat)
    requires bid < BlockCount(pc)
    ensures Kept(pc, bid) <==> Bid2RowCol(pc, bid).1 < pc.k1
  {
    AreaSizes(pc);
    var (row, col) := Bid2RowCol(pc, bid);
    hide Bid2RowCol;
    if row < pc.k2 && col < pc.k1 {
      DataRoundTrip(pc, row, col);
    } else if row < pc.k2 {
      RowParityRoundTrip(pc, row, col);
    } else if col < pc.k1 {
      ColParityRoundTrip(pc, row, col);
    } else {
      GlobalParityRoundTrip(pc, row, col);
    }
  }

  /** Where a kept block of the stripe with serial number s goes. */
  function OldBid2NewBid(pc: Params, x: nat, s: nat, bid: nat): nat
    requires bid < BlockCount(pc)
  {
    var (row, col) := Bid2RowCol(pc, bid);
    RowCol2Bid(Wider(pc, x), row, col + s * pc.k1)
  }

  /** Where the block of a place comes from: an old block, or the new parity of a row. */
  function OriginOf(pc: Params, x: nat, j: nat): Origin
    requires pc.k1 >= 1 && j < BlockCount(Wider(pc, x))
  {
    var (row, col) := Bid2RowCol(Wider(pc, x), j);
    if col < x * pc.k1 then Old(RowOf(col, pc.k1), RowCol2Bid(pc, row, ColOf(col, pc.k1))) else New(row, col - x * pc.k1)
  }

  ghost predicate IsOrigin(pc: Params, x: nat, o: Origin) {
    match o
    case Old(s, i) => s < x && i < BlockCount(pc) && Bid2RowCol(pc, i).1 < pc.k1
    case New(r, p) => r < Rows(pc) && p < pc.m1
  }

  function PlaceOf(pc: Params, x: nat, o: Origin): nat
    requires o.Old? ==> o.block < BlockCount(pc)
  {
    match o
    case Old(s, i) => OldBid2NewBid(pc, x, s, i)
    case New(r, p) => RowCol2Bid(Wider(pc, x), r, x * pc.k1 + p)
  }

  /** Every place of the merged stripe has exactly one origin. */
  lemma PlacesAreOrigins(pc: Params, x: nat, j: nat)
    requires pc.k1 >= 1 && j < BlockCount(Wider(pc, x))
    ensures IsOrigin(pc, x, OriginOf(pc, x, j)) && PlaceOf(pc, x, OriginOf(pc, x, j)) == j
  {
    hide RowCol2Bid, Bid2RowCol, BlockCount, RowOf, ColOf;
    var (row, col) := Bid2RowCol(Wider(pc, x), j);
    if col < x * pc.k1 {
      RowInBounds(col, pc.k1, x);
      PosOfRowCol(col, pc.k1);
      LayoutRoundTrip(pc, row, ColOf(col, pc.k1));
    }
  }

  /** Every origin has a place, and that place has no other origin. */
  lemma OriginsArePlaces(pc: Params, x: nat, o: Origin)
    requires pc.k1 >= 1 && IsOrigin(pc, x, o)
    ensures PlaceOf(pc, x, o) < BlockCount(Wider(pc, x)) && OriginOf(pc, x, PlaceOf(pc, x, o)) == o
  {
    hide RowCol2Bid, Bid2RowCol, BlockCount, RowOf, ColOf;
    match o
    case Old(s, i) =>
      var (row, col) := Bid2RowCol(pc, i);
      PosBound(s, col, pc.k1, x);
      LayoutRoundTrip(Wider(pc, x), row, col + s * pc.k1);
      assert col + s * pc.k1 == Pos(s, col, pc.k1);
      RowColOfPos(s, col, pc.k1);
    case New(r, p) => LayoutRoundTrip(Wider(pc, x), r, x * pc.k1 + p);
  }

  // Filling the places.

  ghost predicate StripesOk(pc: Params, x: nat, stripes: seq<StripeInfo>) {
    && pc.k1 >= 1 && x >= 1 && |stripes| == x
    && forall s :: 0 <= s < x ==> |stripes[s].blocks2nodes| == |stripes[s].blockIds| == BlockCount(pc)
  }

  /** The origins of all places. */
  ghost function Origins(pc: Params, x: nat): (r: seq<Origin>)
    requires pc.k1 >= 1
    ensures |r| == BlockCount(Wider(pc, x)) && forall j :: 0 <= j < |r| ==> r[j] == OriginOf(pc, x, j)
  {
    seq(BlockCount(Wider(pc, x)), j requires 0 <= j < BlockCount(Wider(pc, x)) => OriginOf(pc, x, j))
  }

  lemma OriginsOk(pc: Params, x: nat)
    requires pc.k1 >= 1
    ensures forall j :: 0 <= j < |Origins(pc, x)| ==> OriginOk(Origins(pc, x)[j], x, BlockCount(pc), Rows(pc), pc.m1)
  {
    hide OriginOf, BlockCount, Wider, Bid2RowCol;
    forall j | 0 <= j < |Origins(pc, x)|
      ensures OriginOk(Origins(pc, x)[j], x, BlockCount(pc), Rows(pc), pc.m1)
    {
      PlacesAreOrigins(pc, x, j);
    }
  }

  lemma PlaceIs(pc: Params, x: nat, o: Origin)
    requires pc.k1 >= 1 && IsOrigin(pc, x, o)
    ensures IsPlace(Origins(pc, x), PlaceOf(pc, x, o), o)
  {
    hide OriginOf, BlockCount, Wider, Bid2RowCol, PlaceOf;
    OriginsArePlaces(pc, x, o);
    forall j: nat | j < |Origins(pc, x)| && Origins(pc, x)[j] == o
      ensures j == PlaceOf(pc, x, o)
    {
      PlacesAreOrigins(pc, x, j);
    }
  }

  lemma NoPlace(pc: Params, x: nat, s: nat, i: nat)
    requires pc.k1 >= 1 && i < BlockCount(pc) && Bid2RowCol(pc, i).1 >= pc.k1
    ensures forall j :: 0 <= j < |Origins(pc, x)| ==> Origins(pc, x)[j] != Old(s, i)
  {
    hide OriginOf, BlockCount, Wider, Bid2RowCol;
    forall j: nat | j < |Origins(pc, x)|
      ensures Origins(pc, x)[j] != Old(s, i)
    {
      PlacesAreOrigins(pc, x, j);
    }
  }

  // Rows: what is read to recalculate their parities, and where the parities go.

  /** How many data columns of row r have been seen when block i is reached. */
  function Seen(pc: Params, r: nat, i: nat): nat
    requires r < Rows(pc)
  {
    var start := RowCol2Bid(pc, r, 0);
    if i <= start then 0 else if i - start < pc.k1 then i - start else pc.k1
  }

  lemma RowIsRun(pc: Params, r: nat, col: nat)
    requires r < Rows(pc) && col < pc.k1
    ensures RowCol2Bid(pc, r, col) == RowCol2Bid(pc, r, 0) + col
  {
  }

  /** A kept block is the next column of its row; any other block leaves all rows as they are. */
  lemma SeenStep(pc: Params, r: nat, i: nat)
    requires pc.k1 >= 1 && r < Rows(pc) && i < BlockCount(pc)
    ensures var next := i + 1;
            Seen(pc, r, next) == Seen(pc, r, i) + (if Bid2RowCol(pc, i).0 == r && Bid2RowCol(pc, i).1 < pc.k1 then 1 else 0)
    ensures Bid2RowCol(pc, i).0 == r && Bid2RowCol(pc, i).1 < pc.k1 ==> Bid2RowCol(pc, i).1 == Seen(pc, r, i)
  {
    hide RowCol2Bid, Bid2RowCol, BlockCount;
    var (row, col) := Bid2RowCol(pc, i);
    var start := RowCol2Bid(pc, r, 0);
    if row == r && col < pc.k1 {
      RowIsRun(pc, r, col);
    } else if start <= i < start + pc.k1 {
      RowIsRun(pc, r, i - start);
      BidsApart(pc, row, col, r, i - start);
    }
  }

  lemma SeenEnds(pc: Params, r: nat)
    requires pc.k1 >= 1 && r < Rows(pc)
    ensures Seen(pc, r, 0) == 0 && Seen(pc, r, BlockCount(pc)) == pc.k1
  {
    hide RowCol2Bid, BlockCount;
    LayoutRoundTrip(pc, r, pc.k1 - 1);
    RowIsRun(pc, r, pc.k1 - 1);
  }

  /** The row plans name the columns in order, as far as they have been seen. */
  ghost predicate RowsPlanned(pc: Params, plans: seq<seq<nat>>, s: nat, i: nat) {
    |plans| == Rows(pc) && forall r :: 0 <= r < Rows(pc) ==> plans[r] == UpTo(s * pc.k1 + Seen(pc, r, i))
  }

  /** The node of parity p of row r, as last seen. */
  ghost predicate NodesKept(pc: Params, stripes: seq<StripeInfo>, nodes: seq<seq<nat>>, s: nat, i: nat)
    requires forall s :: 0 <= s < |stripes| ==> |stripes[s].blocks2nodes| == BlockCount(pc)
  {
    && |nodes| == Rows(pc) && (forall r :: 0 <= r < Rows(pc) ==> |nodes[r]| == pc.m1)
    && forall r, p :: 0 <= r < Rows(pc) && 0 <= p < pc.m1 ==> NodeKept(pc, stripes, nodes[r][p], s, i, r, p)
  }

  ghost predicate NodeKept(pc: Params, stripes: seq<StripeInfo>, node: nat, s: nat, i: nat, r: nat, p: nat)
    requires forall s :: 0 <= s < |stripes| ==> |stripes[s].blocks2nodes| == BlockCount(pc)
    requires r < Rows(pc) && p < pc.m1
  {
    LayoutRoundTrip(pc, r, pc.k1 + p);
    var bid := RowCol2Bid(pc, r, pc.k1 + p);
    && (bid < i && s < |stripes| ==> node == stripes[s].blocks2nodes[bid])
    && (bid >= i && 0 < s <= |stripes| ==> node == stripes[s - 1].blocks2nodes[bid])
  }

  lemma NodesStep(pc: Params, stripes: seq<StripeInfo>, nodes: seq<seq<nat>>, s: nat, i: nat)
    requires forall s :: 0 <= s < |stripes| ==> |stripes[s].blocks2nodes| == BlockCount(pc)
    requires s < |stripes| && i < BlockCount(pc) && NodesKept(pc, stripes, nodes, s, i)
    ensures var (row, col) := Bid2RowCol(pc, i);
            var next := i + 1;
            if col < pc.k1 then NodesKept(pc, stripes, nodes, s, next)
            else NodesKept(pc, stripes, nodes[row := nodes[row][col - pc.k1 := stripes[s].blocks2nodes[i]]], s, next)
  {
    hide RowCol2Bid, Bid2RowCol, BlockCount;
    var (row, col) := Bid2RowCol(pc, i);
    var next := i + 1;
    var nodes' := if col < pc.k1 then nodes else nodes[row := nodes[row][col - pc.k1 := stripes[s].blocks2nodes[i]]];
    forall r, p | 0 <= r < Rows(pc) && 0 <= p < pc.m1
      ensures NodeKept(pc, stripes, nodes'[r][p], s, next, r, p)
    {
      assert NodeKept(pc, stripes, nodes[r][p], s, i, r, p);
      if RowCol2Bid(pc, r, pc.k1 + p) == i {
        BidsApart(pc, r, pc.k1 + p, row, col);
      }
    }
  }

  lemma NodesNext(pc: Params, stripes: seq<StripeInfo>, nodes: seq<seq<nat>>, s: nat)
    requires forall s :: 0 <= s < |stripes| ==> |stripes[s].blocks2nodes| == BlockCount(pc)
    requires s < |stripes| && NodesKept(pc, stripes, nodes, s, BlockCount(pc))
    ensures var next := s + 1; NodesKept(pc, stripes, nodes, next, 0)
  {
    hide RowCol2Bid, Bid2RowCol, BlockCount;
    var next := s + 1;
    forall r, p | 0 <= r < Rows(pc) && 0 <= p < pc.m1
      ensures NodeKept(pc, stripes, nodes[r][p], next, 0, r, p)
    {
      assert NodeKept(pc, stripes, nodes[r][p], s, BlockCount(pc), r, p);
      LayoutRoundTrip(pc, r, pc.k1 + p);
    }
  }

  lemma PlansStep(pc: Params, plans: seq<seq<nat>>, s: nat, i: nat)
    requires pc.k1 >= 1 && i < BlockCount(pc) && RowsPlanned(pc, plans, s, i)
    ensures var (row, col) := Bid2RowCol(pc, i);
            var next := i + 1;
            if col < pc.k1 then RowsPlanned(pc, plans[row := plans[row] + [s * pc.k1 + col]], s, next)
            else RowsPlanned(pc, plans, s, next)
  {
    hide RowCol2Bid, Bid2RowCol, BlockCount, Seen, UpTo;
    var (row, col) := Bid2RowCol(pc, i);
    var next := i + 1;
    var plans' := if col < pc.k1 then plans[row := plans[row] + [s * pc.k1 + col]] else plans;
    forall r | 0 <= r < Rows(pc)
      ensures plans'[r] == UpTo(s * pc.k1 + Seen(pc, r, next))
    {
      SeenStep(pc, r, i);
      UpToSnoc(s * pc.k1 + Seen(pc, r, i));
    }
  }

  lemma UpToSnoc(n: nat)
    ensures UpTo(n) + [n] == UpTo(n + 1)
  {
  }

  lemma PlansNext(pc: Params, plans: seq<seq<nat>>, s: nat)
    requires pc.k1 >= 1 && RowsPlanned(pc, plans, s, BlockCount(pc))
    ensures var next := s + 1; RowsPlanned(pc, plans, next, 0)
  {
    hide Seen, BlockCount;
    var next := s + 1;
    assert next * pc.k1 == s * pc.k1 + pc.k1;
    forall r | 0 <= r < Rows(pc)
      ensures plans[r] == UpTo(next * pc.k1 + Seen(pc, r, 0))
    {
      SeenEnds(pc, r);
    }
  }

  /** Moves the kept blocks of one stripe, adds them to the row plans, and notes the nodes of the row parities. */
  method MoveBlocks(pc: Params, x: nat, stripes: seq<StripeInfo>, s: nat, larger0: StripeInfo, plans0: seq<seq<nat>>,
                    nodes0: seq<seq<nat>>, ghost writes0: seq<nat>)
      returns (larger: StripeInfo, plans: seq<seq<nat>>, nodes: seq<seq<nat>>, ghost writes: seq<nat>)
    requires StripesOk(pc, x, stripes) && s < x && Filled(Origins(pc, x), stripes, larger0, writes0, s, 0)
    requires RowsPlanned(pc, plans0, s, 0) && NodesKept(pc, stripes, nodes0, s, 0)
    ensures var next := s + 1;
            && Filled(Origins(pc, x), stripes, larger, writes, next, 0) && RowsPlanned(pc, plans, next, 0)
            && NodesKept(pc, stripes, nodes, next, 0)
  {
    hide Filled, RowsPlanned, NodesKept, RowCol2Bid, Bid2RowCol, BlockCount, Kept, OldBid2NewBid, Wider, OriginOf;
    larger, plans, nodes, writes := larger0, plans0, nodes0, writes0;
    for i := 0 to BlockCount(pc)
      invariant Filled(Origins(pc, x), stripes, larger, writes, s, i)
      invariant RowsPlanned(pc, plans, s, i) && NodesKept(pc, stripes, nodes, s, i)
    {
      var (row, col) := Bid2RowCol(pc, i);
      KeptColumns(pc, i);
      TableSizes(pc, stripes, plans, nodes, s, i);
      PlansStep(pc, plans, s, i);
      NodesStep(pc, stripes, nodes, s, i);
      if Kept(pc, i) {
        var at := OldBid2NewBid(pc, x, s, i);
        PlaceIs(pc, x, Old(s, i));
        FillOne(Origins(pc, x), stripes, larger, writes, s, i, at);
        larger := Put(larger, at, stripes[s].blocks2nodes[i], stripes[s].blockIds[i]);
        writes := writes[at := writes[at] + 1];
        plans := plans[row := plans[row] + [s * pc.k1 + col]];
      } else {
        NoPlace(pc, x, s, i);
        FillSkips(Origins(pc, x), stripes, larger, writes, s, i);
        nodes := nodes[row := nodes[row][col - pc.k1 := stripes[s].blocks2nodes[i]]];
      }
    }
    OriginsOk(pc, x);
    FillNextStripe(Origins(pc, x), stripes, larger, writes, s, BlockCount(pc), Rows(pc), pc.m1);
    PlansNext(pc, plans, s);
    NodesNext(pc, stripes, nodes, s);
  }

  lemma TableSizes(pc: Params, stripes: seq<StripeInfo>, plans: seq<seq<nat>>, nodes: seq<seq<nat>>, s: nat, i: nat)
    requires forall s :: 0 <= s < |stripes| ==> |stripes[s].blocks2nodes| == BlockCount(pc)
    requires RowsPlanned(pc, plans, s, i) && NodesKept(pc, stripes, nodes, s, i)
    ensures |plans| == |nodes| == Rows(pc) && forall r :: 0 <= r < Rows(pc) ==> |nodes[r]| == pc.m1
  {
  }

  // New parities.

  /** The place of a new parity, as the program computes it; it is the one the wider layout gives it. */
  function ParityPlace(pc: Params, x: nat, row: nat, p: nat): (at: nat)
    requires row < Rows(pc) && p < pc.m1
    ensures at == RowCol2Bid(Wider(pc, x), row, x * pc.k1 + p)
  {
    hide RowCol2Bid;
    var w := Wider(pc, x);
    ParityColumnPlace(w, row, p);
    if row >= w.k2 then w.k2 * (w.k1 + w.m1) + w.m2 * w.k1 + (row - w.k2) * w.m1 + p else w.k2 * w.k1 + row * w.m1 + p
  }

  lemma ParityColumnPlace(w: Params, row: nat, p: nat)
    requires row < Rows(w) && p < w.m1
    ensures row < w.k2 ==> RowCol2Bid(w, row, w.k1 + p) == w.k2 * w.k1 + row * w.m1 + p
    ensures row >= w.k2 ==>
              RowCol2Bid(w, row, w.k1 + p) == w.k2 * (w.k1 + w.m1) + w.m2 * w.k1 + (row - w.k2) * w.m1 + p
  {
    hide DataEnd, RowParityEnd, ColParityEnd, BlockCount;
    AreaSizes(w);
  }

  /** The new parities of one row. */
  method PlaceRow(pc: Params, x: nat, ghost stripes: seq<StripeInfo>, larger0: StripeInfo, nodes: seq<seq<nat>>, row: nat,
                  cur0: nat, ghost writes0: seq<nat>, ghost startOf0: seq<int>)
      returns (larger: StripeInfo, cur: nat, ghost writes: seq<nat>, ghost startOf: seq<int>)
    requires pc.k1 >= 1 && |nodes| == Rows(pc) && row < Rows(pc) && |nodes[row]| == pc.m1
    requires NewPlaces(Origins(pc, x), stripes, nodes, larger0, writes0, startOf0, -1, 0) && startOf0[row] == -1
    ensures NewPlaces(Origins(pc, x), stripes, nodes, larger, writes, startOf, -1, 0)
    ensures startOf == startOf0[row := cur0] && cur == cur0 + pc.m1
  {
    hide NewPlaces, RowCol2Bid, Bid2RowCol, BlockCount, Wider, ParityPlace, OriginOf;
    StartCount(pc, x, stripes, nodes, larger0, writes0, startOf0);
    larger, cur, writes, startOf := larger0, cur0, writes0, startOf0[row := cur0];
    RowStarts(Origins(pc, x), stripes, nodes, larger, writes, startOf0, row, cur0);
    for p := 0 to pc.m1
      invariant NewPlaces(Origins(pc, x), stripes, nodes, larger, writes, startOf, row, p) && cur == cur0 + p
    {
      PlaceIs(pc, x, New(row, p));
      var at := ParityPlace(pc, x, row, p);
      PlaceParity(Origins(pc, x), stripes, nodes, larger, writes, startOf, row, p, at);
      larger := Put(larger, at, nodes[row][p], cur);
      writes := writes[at := writes[at] + 1];
      cur := cur + 1;
    }
    OriginsOk(pc, x);
    RowEnds(Origins(pc, x), stripes, nodes, larger, writes, startOf, row, x, BlockCount(pc), pc.m1);
  }

  lemma StartCount(pc: Params, x: nat, stripes: seq<StripeInfo>, nodes: seq<seq<nat>>, t: StripeInfo, writes: seq<nat>,
                   startOf: seq<int>)
    requires pc.k1 >= 1 && NewPlaces(Origins(pc, x), stripes, nodes, t, writes, startOf, -1, 0)
    ensures |startOf| == |nodes|
  {
  }

  /** All the new parities; the rows come up in any order. */
  method PlaceRows(pc: Params, x: nat, ghost stripes: seq<StripeInfo>, larger0: StripeInfo, nodes: seq<seq<nat>>, curBlockId: nat,
                   ghost writes0: seq<nat>)
      returns (larger: StripeInfo, cur: nat, ghost writes: seq<nat>, ghost startOf: seq<int>)
    requires pc.k1 >= 1 && |stripes| == x && |nodes| == Rows(pc) && forall r :: 0 <= r < Rows(pc) ==> |nodes[r]| == pc.m1
    requires Filled(Origins(pc, x), stripes, larger0, writes0, x, 0)
    ensures NewPlaces(Origins(pc, x), stripes, nodes, larger, writes, startOf, -1, 0) && IdsApart(pc.m1, startOf, curBlockId, cur)
    ensures |startOf| == Rows(pc) && forall r :: 0 <= r < Rows(pc) ==> startOf[r] >= curBlockId
  {
    hide NewPlaces, Filled, BlockCount, Wider, RowsToDo, IdsApart, OriginOf;
    larger, cur, writes, startOf := larger0, curBlockId, writes0, seq(Rows(pc), _ => -1);
    OriginsOk(pc, x);
    NewStarts(Origins(pc, x), stripes, nodes, larger, writes, startOf, BlockCount(pc), pc.m1);
    var rows: seq<nat> := UpTo(Rows(pc));
    AllToDo(pc, startOf, curBlockId);
    while rows != []
      invariant NewPlaces(Origins(pc, x), stripes, nodes, larger, writes, startOf, -1, 0)
      invariant IdsApart(pc.m1, startOf, curBlockId, cur) && RowsToDo(pc, rows, startOf) && cur >= curBlockId
      decreases |rows|
    {
      var i :| 0 <= i < |rows|;
      RowDone(pc, rows, startOf, i, curBlockId, cur);
      larger, cur, writes, startOf := PlaceRow(pc, x, stripes, larger, nodes, rows[i], cur, writes, startOf);
      rows := rows[..i] + rows[i + 1..];
    }
    AllDone(pc, startOf, curBlockId, cur);
  }

  /** The rows whose parities have not been placed yet. */
  ghost predicate RowsToDo(pc: Params, rows: seq<nat>, startOf: seq<int>) {
    && |startOf| == Rows(pc) && NoRepeats(rows) && (forall i :: 0 <= i < |rows| ==> rows[i] < Rows(pc))
    && forall r :: 0 <= r < Rows(pc) ==> (startOf[r] == -1 <==> r in rows)
  }

  lemma AllToDo(pc: Params, startOf: seq<int>, cur: nat)
    requires |startOf| == Rows(pc) && forall r :: 0 <= r < Rows(pc) ==> startOf[r] == -1
    ensures RowsToDo(pc, UpTo(Rows(pc)), startOf) && IdsApart(pc.m1, startOf, cur, cur)
  {
    forall r: nat | r < Rows(pc) { InUpTo(Rows(pc), r); }
  }

  lemma RowDone(pc: Params, rows: seq<nat>, startOf: seq<int>, i: nat, cur0: nat, cur: nat)
    requires RowsToDo(pc, rows, startOf) && i < |rows| && IdsApart(pc.m1, startOf, cur0, cur) && cur >= cur0
    ensures rows[i] < Rows(pc) && |startOf| == Rows(pc) && startOf[rows[i]] == -1
    ensures RowsToDo(pc, rows[..i] + rows[i + 1..], startOf[rows[i] := cur])
    ensures IdsApart(pc.m1, startOf[rows[i] := cur], cur0, cur + pc.m1)
  {
    assert rows[i] in rows;
    OneTaken(rows, i);
  }

  lemma AllDone(pc: Params, startOf: seq<int>, cur0: nat, cur: nat)
    requires RowsToDo(pc, [], startOf) && IdsApart(pc.m1, startOf, cur0, cur)
    ensures |startOf| == Rows(pc) && forall r :: 0 <= r < Rows(pc) ==> startOf[r] >= cur0
  {
  }

  /**
   Builds the merged stripe's tables and the row plans. Every place is written exactly once: with a kept
   block of an old stripe, or with a new row parity that has a fresh id and sits on the node of the last
   old stripe's parity; and every row's plan reads each of its data columns once, in order.
   */
  method HorizontalMerge(pc: Params, x: nat, stripes: seq<StripeInfo>, curBlockId: nat)
      returns (larger: StripeInfo, plans: seq<seq<nat>>, cur: nat, nodes: seq<seq<nat>>, ghost writes: seq<nat>,
               ghost startOf: seq<int>)
    requires StripesOk(pc, x, stripes)
    ensures NewPlaces(Origins(pc, x), stripes, nodes, larger, writes, startOf, -1, 0) && NodesKept(pc, stripes, nodes, x, 0)
    ensures forall j :: 0 <= j < |writes| ==> writes[j] == 1
    ensures |startOf| == Rows(pc) && (forall r :: 0 <= r < Rows(pc) ==> startOf[r] >= curBlockId)
    ensures IdsApart(pc.m1, startOf, curBlockId, cur)
    ensures |plans| == Rows(pc) && forall r :: 0 <= r < Rows(pc) ==> plans[r] == UpTo(x * pc.k1)
  {
    hide NewPlaces, NodesKept, RowsPlanned, IdsApart, Wider, OriginOf;
    var n := BlockCount(Wider(pc, x));
    larger, writes := StripeInfo(seq(n, _ => 0), seq(n, _ => 0)), seq(n, _ => 0);
    plans := seq(Rows(pc), _ => []);
    nodes := seq(Rows(pc), _ => seq(pc.m1, _ => 0));
    TablesStart(pc, stripes, plans, nodes);
    for s := 0 to x
      invariant Filled(Origins(pc, x), stripes, larger, writes, s, 0)
      invariant RowsPlanned(pc, plans, s, 0) && NodesKept(pc, stripes, nodes, s, 0)
    {
      larger, plans, nodes, writes := MoveBlocks(pc, x, stripes, s, larger, plans, nodes, writes);
    }
    PlansEnd(pc, plans, x);
    TableSizes(pc, stripes, plans, nodes, x, 0);
    larger, cur, writes, startOf := PlaceRows(pc, x, stripes, larger, nodes, curBlockId, writes);
    OriginsOk(pc, x);
    AllWritten(Origins(pc, x), stripes, nodes, larger, writes, startOf, x, BlockCount(pc), pc.m1);
  }

  lemma TablesStart(pc: Params, stripes: seq<StripeInfo>, plans: seq<seq<nat>>, nodes: seq<seq<nat>>)
    requires pc.k1 >= 1 && forall s :: 0 <= s < |stripes| ==> |stripes[s].blocks2nodes| == BlockCount(pc)
    requires |plans| == |nodes| == Rows(pc) && forall r :: 0 <= r < Rows(pc) ==> plans[r] == [] && |nodes[r]| == pc.m1
    ensures RowsPlanned(pc, plans, 0, 0) && NodesKept(pc, stripes, nodes, 0, 0)
  {
    hide RowCol2Bid, BlockCount;
    forall r | 0 <= r < Rows(pc)
      ensures plans[r] == UpTo(0 * pc.k1 + Seen(pc, r, 0))
    {
      SeenEnds(pc, r);
    }
  }

  lemma PlansEnd(pc: Params, plans: seq<seq<nat>>, x: nat)
    requires pc.k1 >= 1 && RowsPlanned(pc, plans, x, 0)
    ensures |plans| == Rows(pc) && forall r :: 0 <= r < Rows(pc) ==> plans[r] == UpTo(x * pc.k1)
  {
    hide Seen;
    forall r | 0 <= r < Rows(pc)
      ensures plans[r] == UpTo(x * pc.k1)
    {
      SeenEnds(pc, r);
    }
  }
}

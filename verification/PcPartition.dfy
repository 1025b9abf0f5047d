/** Spreading a product-code stripe over partitions of whole columns. */
module PcPartition {
  import opened Listing
  import opened Partitions
  import opened PcLayout
  import opened Peeling
  import opened PcRepair
  import opened PcCodewords

  /** The blocks there are in a column: without global parities, the parity columns are shorter. */
  function Height(pc: Params, hv: bool, c: nat): nat { if hv && c >= pc.k1 then pc.k2 else Rows(pc) }

  function TotalBlocks(pc: Params, hv: bool): nat { if hv then ColParityEnd(pc) else BlockCount(pc) }

  /** The blocks of a column, from the top. */
  function ColumnBlocks(pc: Params, hv: bool, c: nat): (r: seq<nat>)
    ensures |r| == Height(pc, hv, c) && forall i :: 0 <= i < |r| ==> r[i] == RowCol2Bid(pc, i, c)
  {
    seq(Height(pc, hv, c), i requires 0 <= i => RowCol2Bid(pc, i, c))
  }

  function BlocksOf(pc: Params, hv: bool, cols: seq<nat>): seq<nat> {
    if cols == [] then [] else BlocksOf(pc, hv, cols[..|cols| - 1]) + ColumnBlocks(pc, hv, cols[|cols| - 1])
  }

  ghost predicate ColsOk(pc: Params, cols: seq<nat>) {
    NoRepeats(cols) && forall i :: 0 <= i < |cols| ==> cols[i] < Cols(pc)
  }

  /** Exactly the blocks of the listed columns are in. */
  lemma {:induction false} InBlocksOf(pc: Params, hv: bool, cols: seq<nat>, r: nat, c: nat)
    requires (forall i :: 0 <= i < |cols| ==> cols[i] < Cols(pc)) && r < Rows(pc) && c < Cols(pc)
    ensures RowCol2Bid(pc, r, c) in BlocksOf(pc, hv, cols) <==> c in cols && r < Height(pc, hv, c)
  {
    hide RowCol2Bid;
    if cols != [] {
      var n := |cols| - 1;
      InBlocksOf(pc, hv, cols[..n], r, c);
      InColumn(pc, hv, cols[n], r, c);
      assert cols == cols[..n] + [cols[n]];
    }
  }

  lemma InColumn(pc: Params, hv: bool, col: nat, r: nat, c: nat)
    requires col < Cols(pc) && r < Rows(pc) && c < Cols(pc)
    ensures RowCol2Bid(pc, r, c) in ColumnBlocks(pc, hv, col) <==> c == col && r < Height(pc, hv, c)
  {
    hide RowCol2Bid;
    if RowCol2Bid(pc, r, c) in ColumnBlocks(pc, hv, col) {
      var i :| 0 <= i < Height(pc, hv, col) && ColumnBlocks(pc, hv, col)[i] == RowCol2Bid(pc, r, c);
      BidsApart(pc, r, c, i, col);
    }
    if c == col && r < Height(pc, hv, c) {
      assert ColumnBlocks(pc, hv, col)[r] == RowCol2Bid(pc, r, c);
    }
  }

  lemma {:induction false} BlocksOfRange(pc: Params, hv: bool, cols: seq<nat>, x: nat)
    requires (forall i :: 0 <= i < |cols| ==> cols[i] < Cols(pc)) && x in BlocksOf(pc, hv, cols)
    ensures x < BlockCount(pc)
  {
    hide RowCol2Bid, BlockCount;
    var n := |cols| - 1;
    if x in BlocksOf(pc, hv, cols[..n]) {
      BlocksOfRange(pc, hv, cols[..n], x);
    } else {
      var i :| 0 <= i < Height(pc, hv, cols[n]) && ColumnBlocks(pc, hv, cols[n])[i] == x;
      LayoutRoundTrip(pc, i, cols[n]);
    }
  }

  lemma {:induction false} BlocksOfApart(pc: Params, hv: bool, cols: seq<nat>)
    requires ColsOk(pc, cols)
    ensures NoRepeats(BlocksOf(pc, hv, cols))
  {
    hide RowCol2Bid;
    if cols != [] {
      var n := |cols| - 1;
      var c, before := cols[n], cols[..n];
      BlocksOfApart(pc, hv, before);
      forall i | 0 <= i < Height(pc, hv, c)
        ensures ColumnBlocks(pc, hv, c)[i] !in BlocksOf(pc, hv, before)
      {
        InBlocksOf(pc, hv, before, i, c);
      }
      ColumnApart(pc, hv, c);
    }
  }

  lemma ColumnApart(pc: Params, hv: bool, c: nat)
    requires c < Cols(pc)
    ensures NoRepeats(ColumnBlocks(pc, hv, c))
  {
    hide RowCol2Bid;
    forall i: nat, j: nat | i < j < Height(pc, hv, c)
      ensures RowCol2Bid(pc, i, c) != RowCol2Bid(pc, j, c)
    {
      if RowCol2Bid(pc, i, c) == RowCol2Bid(pc, j, c) {
        BidsApart(pc, i, c, j, c);
      }
    }
  }

  // Losing the columns of one part.

  lemma CountWithin(line: seq<bool>, places: seq<nat>)
    requires forall c :: 0 <= c < |line| && line[c] ==> c in places
    ensures CountTrue(line) <= |places|
  {
    MarkedPositions(line);
    var marked := Marked(line);
    SizeOfElements(marked);
    ElementsAtMost(places);
    forall x | x in Elements(marked)
      ensures x in Elements(places)
    {
      assert line[x];
    }
    SubsetSize(Elements(marked), Elements(places));
  }

  /** As many columns as a row has parities can be lost together. */
  lemma ColumnsSurvive(pc: Params, hv: bool, cols: seq<nat>)
    requires (forall i :: 0 <= i < |cols| ==> cols[i] < Cols(pc)) && |cols| <= pc.m1
    ensures !HasStoppingSet(Failed(pc, BlocksOf(pc, hv, cols)), ShapeOf(pc, hv))
  {
    var g, sh := Failed(pc, BlocksOf(pc, hv, cols)), ShapeOf(pc, hv);
    forall t | IsStuckSet(t, g, sh)
      ensures !NonEmpty(t, sh)
    {
      NothingStuck(pc, hv, cols, t);
    }
  }

  lemma NothingStuck(pc: Params, hv: bool, cols: seq<nat>, t: Grid)
    requires (forall i :: 0 <= i < |cols| ==> cols[i] < Cols(pc)) && |cols| <= pc.m1
    requires IsStuckSet(t, Failed(pc, BlocksOf(pc, hv, cols)), ShapeOf(pc, hv))
    ensures !NonEmpty(t, ShapeOf(pc, hv))
  {
    hide RowCol2Bid, BlocksOf, Height;
    var sh := ShapeOf(pc, hv);
    forall r: nat, c: nat | r < Rows(pc) && c < Cols(pc)
      ensures t[r][c] ==> c in cols && r < Height(pc, hv, c)
    {
      InBlocksOf(pc, hv, cols, r, c);
    }
    forall r: nat | r < sh.peelRows
      ensures forall c :: 0 <= c < Cols(pc) ==> !t[r][c]
    {
      CountWithin(t[r], cols);
      CountZero(t[r]);
    }
    if hv {
      ParityRowsClear(pc, t);
    }
  }

  /** Without global parities: the parity rows have nothing in the parity columns, and few blocks in each other column. */
  lemma ParityRowsClear(pc: Params, t: Grid)
    requires Fits(t, HvShape(pc)) && IsStopping(t, HvShape(pc))
    requires forall r, c :: 0 <= r < pc.k2 && 0 <= c < Cols(pc) ==> !t[r][c]
    requires forall r, c :: 0 <= r < Rows(pc) && 0 <= c < Cols(pc) && t[r][c] ==> r < Height(pc, true, c)
    ensures !NonEmpty(t, HvShape(pc))
  {
    forall r: nat, c: nat | r < Rows(pc) && c < Cols(pc)
      ensures !t[r][c]
    {
      if c < pc.k1 {
        ColumnClear(pc, t, c);
        assert !Col(t, c)[r] && Col(t, c)[r] == t[r][c];
      } else {
        assert t[r][c] ==> r < Height(pc, true, c) == pc.k2;
      }
    }
  }

  lemma ColumnClear(pc: Params, t: Grid, c: nat)
    requires Fits(t, HvShape(pc)) && IsStopping(t, HvShape(pc)) && c < pc.k1
    requires forall r :: 0 <= r < pc.k2 ==> !t[r][c]
    ensures forall r :: 0 <= r < Rows(pc) ==> !Col(t, c)[r]
  {
    var low := seq(pc.m2, i requires 0 <= i < pc.m2 => pc.k2 + i);
    forall r: nat | r < Rows(pc) && Col(t, c)[r]
      ensures r in low
    {
      assert low[r - pc.k2] == r;
    }
    CountWithin(Col(t, c), low);
    CountZero(Col(t, c));
  }

  // The partitions.

  ghost predicate PlanIs(pc: Params, hv: bool, columns: Partition, plan: Partition) {
    |plan| == |columns| && forall i :: 0 <= i < |plan| ==> plan[i] == BlocksOf(pc, hv, columns[i])
  }

  lemma {:induction false} BlocksOfBoth(pc: Params, hv: bool, a: seq<nat>, b: seq<nat>)
    ensures BlocksOf(pc, hv, a + b) == BlocksOf(pc, hv, a) + BlocksOf(pc, hv, b)
  {
    if b == [] {
      assert a + b == a;
    } else {
      var n := |b| - 1;
      BlocksOfBoth(pc, hv, a, b[..n]);
      assert (a + b)[..|a + b| - 1] == a + b[..n];
    }
  }

  lemma {:induction false} ConcatOfPlan(pc: Params, hv: bool, columns: Partition, plan: Partition)
    requires PlanIs(pc, hv, columns, plan)
    ensures Concat(plan) == BlocksOf(pc, hv, Concat(columns))
  {
    if plan != [] {
      var n := |plan| - 1;
      ConcatOfPlan(pc, hv, columns[..n], plan[..n]);
      BlocksOfBoth(pc, hv, Concat(columns[..n]), columns[n]);
    }
  }

  /** Whole columns, each in one part: every block of the code is in one part. */
  lemma PlanIsPartition(pc: Params, hv: bool, columns: Partition, plan: Partition)
    requires pc.k2 >= 1 && IsPartition(columns, Cols(pc)) && PlanIs(pc, hv, columns, plan)
    ensures IsPartition(plan, TotalBlocks(pc, hv))
  {
    hide RowCol2Bid, Bid2RowCol, BlockCount, ColParityEnd, Height;
    var cols := Concat(columns);
    ConcatOfPlan(pc, hv, columns, plan);
    BlocksOfApart(pc, hv, cols);
    forall x: nat | x < BlockCount(pc)
      ensures x in Concat(plan) <==> x < TotalBlocks(pc, hv)
    {
      var (r, c) := Bid2RowCol(pc, x);
      InBlocksOf(pc, hv, cols, r, c);
      Corner(pc, hv, r, c);
    }
    forall a | 0 <= a < |Concat(plan)|
      ensures Concat(plan)[a] < TotalBlocks(pc, hv)
    {
      BlocksOfRange(pc, hv, cols, Concat(plan)[a]);
    }
    TotalAtMost(pc, hv);
    forall i | 0 <= i < |plan|
      ensures plan[i] != []
    {
      PartNotEmpty(pc, hv, columns[i]);
    }
  }

  lemma TotalAtMost(pc: Params, hv: bool)
    ensures TotalBlocks(pc, hv) <= BlockCount(pc)
  {
    AreasInOrder(pc);
  }

  /** The ids below the total are those of the cells that are there. */
  lemma Corner(pc: Params, hv: bool, r: nat, c: nat)
    requires r < Rows(pc) && c < Cols(pc)
    ensures RowCol2Bid(pc, r, c) < TotalBlocks(pc, hv) <==> r < Height(pc, hv, c)
  {
    AreasInOrder(pc);
    LayoutRoundTrip(pc, r, c);
    if r < pc.k2 && c < pc.k1 {
      DataRoundTrip(pc, r, c);
    } else if r < pc.k2 {
      RowParityRoundTrip(pc, r, c);
    } else if c < pc.k1 {
      ColParityRoundTrip(pc, r, c);
    } else {
      GlobalParityRoundTrip(pc, r, c);
    }
  }

  lemma PartNotEmpty(pc: Params, hv: bool, cols: seq<nat>)
    requires pc.k2 >= 1 && cols != []
    ensures BlocksOf(pc, hv, cols) != []
  {
    var last := ColumnBlocks(pc, hv, cols[|cols| - 1]);
    assert |last| >= 1;
  }

  /** The blocks of a run of columns, column by column from the top. */
  method ListBlocks(pc: Params, hv: bool, cols: seq<nat>) returns (part: seq<nat>)
    ensures part == BlocksOf(pc, hv, cols)
  {
    part := [];
    for i := 0 to |cols|
      invariant part == BlocksOf(pc, hv, cols[..i])
    {
      ghost var before := part;
      for row := 0 to Height(pc, hv, cols[i])
        invariant part == before + ColumnBlocks(pc, hv, cols[i])[..row]
      {
        part := part + [RowCol2Bid(pc, row, cols[i])];
      }
      assert cols[..i + 1][..i] == cols[..i];
    }
    assert cols[..|cols|] == cols;
  }

  /** Losing the blocks of any one part can be repaired. */
  ghost predicate EachSurvives(pc: Params, hv: bool, plan: Partition)
  {
    forall i :: 0 <= i < |plan| ==> !HasStoppingSet(Failed(pc, plan[i]), ShapeOf(pc, hv))
  }

  /** Runs of m1 columns. */
  method PartitionOptimal(pc: Params, hv: bool) returns (plan: Partition, columns: Partition)
    requires pc.m1 >= 1 && pc.k2 >= 1
    ensures IsPartition(columns, Cols(pc)) && PlanIs(pc, hv, columns, plan)
    ensures Concat(columns) == UpTo(Cols(pc)) && forall i :: 0 <= i < |columns| - 1 ==> |columns[i]| == pc.m1
    ensures IsPartition(plan, TotalBlocks(pc, hv)) && EachSurvives(pc, hv, plan)
  {
    hide RowCol2Bid, BlockCount, HasStoppingSet, BlocksOf, TotalBlocks, IsPartition, EachSurvives;
    plan, columns := [], [];
    var n, cnt := Cols(pc), 0;
    while cnt < n
      invariant 0 <= cnt <= n && Concat(columns) == UpTo(cnt) && PlanIs(pc, hv, columns, plan)
      invariant forall i :: 0 <= i < |columns| ==> columns[i] != [] && |columns[i]| <= pc.m1
      invariant forall i :: 0 <= i < |columns| && (i < |columns| - 1 || cnt < n) ==> |columns[i]| == pc.m1
    {
      var size := if pc.m1 < n - cnt then pc.m1 else n - cnt;
      var cols: seq<nat> := [];
      for i := 0 to size
        invariant |cols| == i && forall j :: 0 <= j < i ==> cols[j] == cnt + j
      {
        cols := cols + [cnt + i];
      }
      var part := ListBlocks(pc, hv, cols);
      ConcatSnoc(columns, cols);
      assert UpTo(cnt) + cols == UpTo(cnt + size);
      plan, columns := plan + [part], columns + [cols];
      cnt := cnt + size;
    }
    AllInOrder(columns, n);
    PlanIsPartition(pc, hv, columns, plan);
    PartsSurvive(pc, hv, columns, plan);
  }

  lemma PartsSurvive(pc: Params, hv: bool, columns: Partition, plan: Partition)
    requires IsPartition(columns, Cols(pc)) && PlanIs(pc, hv, columns, plan)
    requires forall i :: 0 <= i < |columns| ==> |columns[i]| <= pc.m1
    ensures EachSurvives(pc, hv, plan)
  {
    hide RowCol2Bid, BlockCount, HasStoppingSet, BlocksOf;
    forall i | 0 <= i < |plan|
      ensures !HasStoppingSet(Failed(pc, plan[i]), ShapeOf(pc, hv))
    {
      PartOf(columns, Cols(pc), i);
      ColumnsSurvive(pc, hv, columns[i]);
    }
  }

  /** Randomly drawn columns, at most m1 to a part. */
  method PartitionByRandomColumns(pc: Params, hv: bool) returns (plan: Partition, columns: Partition)
    requires pc.m1 >= 1 && pc.k2 >= 1
    ensures IsPartition(columns, Cols(pc)) && PlanIs(pc, hv, columns, plan)
    ensures IsPartition(plan, TotalBlocks(pc, hv)) && EachSurvives(pc, hv, plan)
  {
    hide RowCol2Bid, BlockCount, HasStoppingSet, BlocksOf, TotalBlocks;
    columns := PartitionRandom(Cols(pc), pc.m1);
    plan := [];
    for i := 0 to |columns|
      invariant PlanIs(pc, hv, columns[..i], plan)
    {
      var part := ListBlocks(pc, hv, columns[i]);
      plan := plan + [part];
    }
    PlanIsPartition(pc, hv, columns, plan);
    PartsSurvive(pc, hv, columns, plan);
  }
}

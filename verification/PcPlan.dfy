/**
 The repair planner of the product codes. It peels one row at a time where the decodability test peels
 all rows of a pass, yet it always comes to the same verdict.
 */
module PcPlan {
  import opened Listing
  import opened Partitions
  import opened PcLayout
  import opened Peeling
  import opened PcRepair
  import RowMajor
  import Rs = RsRepair

  datatype RepairPlan =
    RepairPlan(localOrColumn: bool, failureIdxs: seq<nat>, parityIdxs: seq<nat>, helpBlocks: seq<seq<nat>>)

  /** The code and how it is placed: `hv` without global parities, and the row code's partition of the columns. */
  datatype Code = Code(pc: Params, hv: bool, flat: bool, rowPartition: Partition, partialScheme: bool)

  function Repaired(plans: seq<RepairPlan>): seq<nat> {
    if plans == [] then [] else Repaired(plans[..|plans| - 1]) + plans[|plans| - 1].failureIdxs
  }

  /** The block has failed and has not been repaired. */
  ghost predicate Open(id: nat, failures: seq<nat>, repaired: seq<nat>) {
    id in failures && id !in repaired
  }

  /** The rows of a column, and the columns of a row, where a block is still to be repaired. */
  ghost function LeftInColumn(pc: Params, failures: seq<nat>, repaired: seq<nat>, c: nat): set<nat> {
    set r: nat | r < Rows(pc) && Open(RowCol2Bid(pc, r, c), failures, repaired)
  }

  ghost function LeftInRow(pc: Params, failures: seq<nat>, repaired: seq<nat>, r: nat): set<nat> {
    set c: nat | c < Cols(pc) && Open(RowCol2Bid(pc, r, c), failures, repaired)
  }

  ghost predicate ColumnWithin(code: Code, failures: seq<nat>, repaired: seq<nat>, c: nat) {
    0 < |LeftInColumn(code.pc, failures, repaired, c)| <= code.pc.m2
  }

  ghost predicate RowWithin(code: Code, failures: seq<nat>, repaired: seq<nat>, r: nat) {
    0 < |LeftInRow(code.pc, failures, repaired, r)| <= code.pc.m1
  }

  /** All that is left to repair in the column, from its first k2 blocks that can be read. */
  ghost predicate ColumnPlanOk(p: RepairPlan, code: Code, failures: seq<nat>, repaired: seq<nat>, c: nat) {
    var pc, help := code.pc, Concat(p.helpBlocks);
    && c < RepairableCols(pc, code.hv) && ColumnWithin(code, failures, repaired, c)
    && NoRepeats(p.failureIdxs) && (forall i :: 0 <= i < |p.failureIdxs| ==> InColumn(p.failureIdxs[i], pc, c))
    && (forall r :: 0 <= r < Rows(pc) ==> (RowCol2Bid(pc, r, c) in p.failureIdxs <==> Open(RowCol2Bid(pc, r, c), failures, repaired)))
    && NoRepeats(help) && |help| == pc.k2
    && (forall i :: 0 <= i < |help| ==> InColumn(help[i], pc, c) && !Open(help[i], failures, repaired))
    && (forall r, q :: 0 <= r < q < Rows(pc) && RowCol2Bid(pc, q, c) in help && !Open(RowCol2Bid(pc, r, c), failures, repaired) ==>
          RowCol2Bid(pc, r, c) in help)
    && p.parityIdxs == [] && ColumnGroups(p.helpBlocks, code.flat)
  }

  /** Every helper goes by itself under flat placement, all go together otherwise. */
  ghost predicate ColumnGroups(groups: seq<seq<nat>>, flat: bool) {
    if flat then forall i :: 0 <= i < |groups| ==> |groups[i]| == 1 else |groups| == 1
  }

  /**
   All that is left to repair in the row, from exactly k1 blocks of it that can be read. A row is planned
   only when no column is within its limit, and it is the first row within its limit. Helpers and parities
   are those of the row code for the failed columns.
   */
  ghost predicate RowPlanOk(p: RepairPlan, code: Code, failures: seq<nat>, repaired: seq<nat>, r: nat) {
    var pc, help := code.pc, Concat(p.helpBlocks);
    && r < RepairableRows(pc, code.hv) && RowWithin(code, failures, repaired, r)
    && (forall c :: 0 <= c < RepairableCols(pc, code.hv) ==> !ColumnWithin(code, failures, repaired, c))
    && (forall q :: 0 <= q < r ==> !RowWithin(code, failures, repaired, q))
    && NoRepeats(p.failureIdxs) && (forall i :: 0 <= i < |p.failureIdxs| ==> InRow(p.failureIdxs[i], pc, r))
    && (forall c :: 0 <= c < Cols(pc) ==> (RowCol2Bid(pc, r, c) in p.failureIdxs <==> Open(RowCol2Bid(pc, r, c), failures, repaired)))
    && NoRepeats(help) && |help| == pc.k1
    && (forall i :: 0 <= i < |help| ==> InRow(help[i], pc, r) && !Open(help[i], failures, repaired))
    && Rs.ChosenFor(pc.k1, code.rowPartition, ColumnsOf(pc, p.failureIdxs), code.partialScheme, p.parityIdxs,
                    GroupColumns(pc, p.helpBlocks))
  }

  ghost predicate InColumn(id: nat, pc: Params, c: nat) {
    exists r :: 0 <= r < Rows(pc) && id == RowCol2Bid(pc, r, c)
  }

  ghost predicate InRow(id: nat, pc: Params, r: nat) {
    exists c :: 0 <= c < Cols(pc) && id == RowCol2Bid(pc, r, c)
  }

  /** The columns the blocks are in. */
  ghost function ColumnsOf(pc: Params, ids: seq<nat>): (cols: seq<nat>)
    ensures |cols| == |ids| && forall i :: 0 <= i < |ids| && ids[i] < BlockCount(pc) ==> cols[i] == Bid2RowCol(pc, ids[i]).1
  {
    seq(|ids|, i requires 0 <= i < |ids| => if ids[i] < BlockCount(pc) then Bid2RowCol(pc, ids[i]).1 else 0)
  }

  ghost function GroupColumns(pc: Params, groups: seq<seq<nat>>): (cols: seq<seq<nat>>)
    ensures |cols| == |groups| && forall i :: 0 <= i < |groups| ==> cols[i] == ColumnsOf(pc, groups[i])
  {
    seq(|groups|, i requires 0 <= i < |groups| => ColumnsOf(pc, groups[i]))
  }

  ghost predicate PlanOk(p: RepairPlan, code: Code, failures: seq<nat>, repaired: seq<nat>) {
    if p.localOrColumn then exists c :: ColumnPlanOk(p, code, failures, repaired, c)
    else exists r :: RowPlanOk(p, code, failures, repaired, r)
  }

  /** Each plan can be carried out after the plans before it. */
  ghost predicate PlansOk(plans: seq<RepairPlan>, code: Code, failures: seq<nat>) {
    forall i :: 0 <= i < |plans| ==> PlanOk(plans[i], code, failures, Repaired(plans[..i]))
  }

  /** The failed cells are the failures not repaired yet, and nothing has been repaired twice. */
  ghost predicate Tracks(g: Grid, pc: Params, failures: seq<nat>, repaired: seq<nat>)
    requires |g| == Rows(pc) && forall r :: 0 <= r < Rows(pc) ==> |g[r]| == Cols(pc)
  {
    && NoRepeats(repaired) && (forall i :: 0 <= i < |repaired| ==> repaired[i] in failures)
    && forall r, c :: 0 <= r < Rows(pc) && 0 <= c < Cols(pc) ==>
         (g[r][c] <==> RowCol2Bid(pc, r, c) in failures && RowCol2Bid(pc, r, c) !in repaired)
  }

  // Listing the cells of a line.

  lemma {:induction false} ColumnIdsMember(pc: Params, g: Grid, c: nat, n: nat, x: nat)
    requires n <= |g| && forall i :: 0 <= i < |g| ==> c < |g[i]|
    ensures x in ColumnIds(pc, g, c, n) <==> exists r :: 0 <= r < n && g[r][c] && x == RowCol2Bid(pc, r, c)
  {
    if n > 0 {
      ColumnIdsMember(pc, g, c, n - 1, x);
    }
  }

  lemma {:induction false} RowIdsMember(pc: Params, g: Grid, r: nat, n: nat, x: nat)
    requires r < |g| && n <= |g[r]|
    ensures x in RowIds(pc, g, r, n) <==> exists c :: 0 <= c < n && g[r][c] && x == RowCol2Bid(pc, r, c)
  {
    if n > 0 {
      RowIdsMember(pc, g, r, n - 1, x);
    }
  }

  lemma {:induction false} ColumnIdsNoRepeats(pc: Params, g: Grid, c: nat, n: nat)
    requires n <= |g| <= Rows(pc) && c < Cols(pc) && forall i :: 0 <= i < |g| ==> c < |g[i]|
    ensures NoRepeats(ColumnIds(pc, g, c, n)) && |ColumnIds(pc, g, c, n)| == CountTrue(Col(g, c)[..n])
  {
    if n > 0 {
      hide RowCol2Bid;
      ColumnIdsNoRepeats(pc, g, c, n - 1);
      var before := ColumnIds(pc, g, c, n - 1);
      var id := RowCol2Bid(pc, n - 1, c);
      ColumnIdsMember(pc, g, c, n - 1, id);
      if id in before {
        var r :| 0 <= r < n - 1 && g[r][c] && id == RowCol2Bid(pc, r, c);
        BidsApart(pc, r, c, n - 1, c);
      }
      NoRepeatsConcat(before, if g[n - 1][c] then [id] else []);
      assert Col(g, c)[..n][..n - 1] == Col(g, c)[..n - 1];
    }
  }

  lemma {:induction false} RowIdsNoRepeats(pc: Params, g: Grid, r: nat, n: nat)
    requires r < |g| && r < Rows(pc) && n <= |g[r]| <= Cols(pc)
    ensures NoRepeats(RowIds(pc, g, r, n)) && |RowIds(pc, g, r, n)| == CountTrue(g[r][..n])
  {
    if n > 0 {
      hide RowCol2Bid;
      RowIdsNoRepeats(pc, g, r, n - 1);
      var before := RowIds(pc, g, r, n - 1);
      var id := RowCol2Bid(pc, r, n - 1);
      RowIdsMember(pc, g, r, n - 1, id);
      if id in before {
        var c :| 0 <= c < n - 1 && g[r][c] && id == RowCol2Bid(pc, r, c);
        BidsApart(pc, r, c, r, n - 1);
      }
      NoRepeatsConcat(before, if g[r][n - 1] then [id] else []);
      assert g[r][..n][..n - 1] == g[r][..n - 1];
    }
  }

  // Clearing a line and recording its ids.

  lemma TrackColumn(g: Grid, sh: Shape, pc: Params, failures: seq<nat>, repaired: seq<nat>, c: nat)
    requires ForCode(sh, pc) && Fits(g, sh) && c < sh.cols && Tracks(g, pc, failures, repaired)
    ensures Tracks(ClearCol(g, sh, c), pc, failures, repaired + ColumnIds(pc, g, c, sh.rows))
  {
    hide RowCol2Bid;
    var ids := ColumnIds(pc, g, c, sh.rows);
    ColumnIdsNoRepeats(pc, g, c, sh.rows);
    forall x | x in ids
      ensures x in failures && x !in repaired
    {
      ColumnIdsMember(pc, g, c, sh.rows, x);
    }
    forall x | x in repaired
      ensures x !in ids
    {
    }
    NoRepeatsConcat(repaired, ids);
    forall r, j | 0 <= r < Rows(pc) && 0 <= j < Cols(pc)
      ensures ClearCol(g, sh, c)[r][j] <==>
              RowCol2Bid(pc, r, j) in failures && RowCol2Bid(pc, r, j) !in repaired + ids
    {
      var id := RowCol2Bid(pc, r, j);
      ColumnIdsMember(pc, g, c, sh.rows, id);
      if id in ids {
        var q :| 0 <= q < sh.rows && g[q][c] && id == RowCol2Bid(pc, q, c);
        BidsApart(pc, r, j, q, c);
      }
    }
  }

  lemma TrackRow(g: Grid, sh: Shape, pc: Params, failures: seq<nat>, repaired: seq<nat>, r: nat)
    requires ForCode(sh, pc) && Fits(g, sh) && r < sh.rows && Tracks(g, pc, failures, repaired)
    ensures Tracks(ClearRow(g, sh, r), pc, failures, repaired + RowIds(pc, g, r, sh.cols))
  {
    hide RowCol2Bid;
    var ids := RowIds(pc, g, r, sh.cols);
    RowIdsNoRepeats(pc, g, r, sh.cols);
    forall x | x in ids
      ensures x in failures && x !in repaired
    {
      RowIdsMember(pc, g, r, sh.cols, x);
    }
    forall x | x in repaired
      ensures x !in ids
    {
    }
    NoRepeatsConcat(repaired, ids);
    forall q, j | 0 <= q < Rows(pc) && 0 <= j < Cols(pc)
      ensures ClearRow(g, sh, r)[q][j] <==>
              RowCol2Bid(pc, q, j) in failures && RowCol2Bid(pc, q, j) !in repaired + ids
    {
      var id := RowCol2Bid(pc, q, j);
      RowIdsMember(pc, g, r, sh.cols, id);
      if id in ids {
        var c :| 0 <= c < sh.cols && g[r][c] && id == RowCol2Bid(pc, r, c);
        BidsApart(pc, q, j, r, c);
      }
    }
  }

  // Choosing helpers.

  ghost predicate LiveInColumn(id: nat, pc: Params, g: Grid, c: nat)
    requires |g| == Rows(pc) && forall r :: 0 <= r < Rows(pc) ==> |g[r]| == Cols(pc)
    requires c < Cols(pc)
  {
    exists r :: 0 <= r < Rows(pc) && id == RowCol2Bid(pc, r, c) && !g[r][c]
  }

  /** The ids of the live blocks in the first n rows of column c. */
  function LiveIds(pc: Params, g: Grid, c: nat, n: nat): seq<nat>
    requires n <= |g| && forall i :: 0 <= i < |g| ==> c < |g[i]|
  {
    if n == 0 then []
    else LiveIds(pc, g, c, n - 1) + (if g[n - 1][c] then [] else [RowCol2Bid(pc, n - 1, c)])
  }

  lemma {:induction false} LiveIdsMember(pc: Params, g: Grid, c: nat, n: nat, x: nat)
    requires n <= |g| && forall i :: 0 <= i < |g| ==> c < |g[i]|
    ensures x in LiveIds(pc, g, c, n) <==> exists r :: 0 <= r < n && !g[r][c] && x == RowCol2Bid(pc, r, c)
  {
    if n > 0 {
      LiveIdsMember(pc, g, c, n - 1, x);
    }
  }

  lemma {:induction false} LiveIdsCount(pc: Params, g: Grid, c: nat, n: nat)
    requires n <= |g| <= Rows(pc) && c < Cols(pc) && forall i :: 0 <= i < |g| ==> c < |g[i]|
    ensures NoRepeats(LiveIds(pc, g, c, n)) && |LiveIds(pc, g, c, n)| == n - CountTrue(Col(g, c)[..n])
  {
    if n > 0 {
      hide RowCol2Bid;
      LiveIdsCount(pc, g, c, n - 1);
      var before := LiveIds(pc, g, c, n - 1);
      var id := RowCol2Bid(pc, n - 1, c);
      LiveIdsMember(pc, g, c, n - 1, id);
      if id in before {
        var r :| 0 <= r < n - 1 && !g[r][c] && id == RowCol2Bid(pc, r, c);
        BidsApart(pc, r, c, n - 1, c);
      }
      NoRepeatsConcat(before, if g[n - 1][c] then [] else [id]);
      assert Col(g, c)[..n][..n - 1] == Col(g, c)[..n - 1];
    }
  }

  lemma {:induction false} LiveIdsPrefix(pc: Params, g: Grid, c: nat, n: nat, n': nat)
    requires n <= n' <= |g| && forall i :: 0 <= i < |g| ==> c < |g[i]|
    ensures LiveIds(pc, g, c, n) <= LiveIds(pc, g, c, n')
  {
    if n < n' {
      LiveIdsPrefix(pc, g, c, n, n' - 1);
    }
  }

  /** The first k2 live blocks of a column that has no more failures than the code repairs. */
  method ColumnHelpers(pc: Params, g: Grid, sh: Shape, c: nat) returns (help: seq<nat>)
    requires ForCode(sh, pc) && Fits(g, sh) && c < sh.cols && CountTrue(Col(g, c)) <= pc.m2
    ensures |help| == pc.k2 && help <= LiveIds(pc, g, c, sh.rows)
  {
    help := [];
    var cnt := 0;
    ghost var all := LiveIds(pc, g, c, sh.rows);
    LiveIdsCount(pc, g, c, sh.rows);
    assert Col(g, c)[..sh.rows] == Col(g, c);
    for j := 0 to sh.rows
      invariant cnt == |help| <= pc.k2
      invariant help == LiveIds(pc, g, c, j)
    {
      LiveIdsPrefix(pc, g, c, j, sh.rows);
      if cnt == pc.k2 {
        break;
      }
      if !g[j][c] {
        help := help + [RowCol2Bid(pc, j, c)];
        cnt := cnt + 1;
      }
    }
  }

  lemma PrefixIsLive(pc: Params, g: Grid, sh: Shape, c: nat, help: seq<nat>)
    requires ForCode(sh, pc) && Fits(g, sh) && c < sh.cols && help <= LiveIds(pc, g, c, sh.rows)
    ensures NoRepeats(help) && forall i :: 0 <= i < |help| ==> LiveInColumn(help[i], pc, g, c)
  {
    LiveIdsCount(pc, g, c, sh.rows);
    forall i | 0 <= i < |help|
      ensures LiveInColumn(help[i], pc, g, c)
    {
      assert help[i] == LiveIds(pc, g, c, sh.rows)[i];
      LiveIdsMember(pc, g, c, sh.rows, help[i]);
    }
  }

  /** Where a live block is listed: after those above it. */
  lemma {:induction false} ListedAt(pc: Params, g: Grid, c: nat, n: nat, r: nat) returns (at: nat)
    requires n <= |g| && (forall i :: 0 <= i < |g| ==> c < |g[i]|) && r < n && !g[r][c]
    ensures at == |LiveIds(pc, g, c, r)| < |LiveIds(pc, g, c, n)| && LiveIds(pc, g, c, n)[at] == RowCol2Bid(pc, r, c)
  {
    if r == n - 1 {
      at := |LiveIds(pc, g, c, r)|;
    } else {
      at := ListedAt(pc, g, c, n - 1, r);
    }
  }

  /** A prefix of the live blocks of a column skips none. */
  lemma PrefixSkipsNone(pc: Params, g: Grid, sh: Shape, c: nat, help: seq<nat>, r: nat, q: nat)
    requires ForCode(sh, pc) && Fits(g, sh) && c < sh.cols && help <= LiveIds(pc, g, c, sh.rows)
    requires r < q < sh.rows && RowCol2Bid(pc, q, c) in help && !g[r][c]
    ensures RowCol2Bid(pc, r, c) in help
  {
    hide RowCol2Bid, LiveIds;
    var all := LiveIds(pc, g, c, sh.rows);
    PrefixIsLive(pc, g, sh, c, help);
    var j :| 0 <= j < |help| && help[j] == RowCol2Bid(pc, q, c);
    assert LiveInColumn(help[j], pc, g, c);
    var q' :| 0 <= q' < Rows(pc) && help[j] == RowCol2Bid(pc, q', c) && !g[q'][c];
    BidsApart(pc, q, c, q', c);
    var a := ListedAt(pc, g, c, sh.rows, r);
    var b := ListedAt(pc, g, c, sh.rows, q);
    LiveIdsCount(pc, g, c, sh.rows);
    LiveIdsPrefix(pc, g, c, r, q);
    assert all[b] == all[j];
    assert help[a] == all[a];
  }

  /** One group per helper under flat placement, one group otherwise. */
  method Grouped(help: seq<nat>, flat: bool) returns (groups: seq<seq<nat>>)
    ensures Concat(groups) == help && ColumnGroups(groups, flat)
  {
    if flat {
      groups := [];
      for i := 0 to |help|
        invariant Concat(groups) == help[..i] && ColumnGroups(groups, true)
      {
        ghost var before := groups;
        groups := groups + [[help[i]]];
        assert groups[..|groups| - 1] == before;
      }
    } else {
      groups := [help];
      assert groups[..0] == [];
    }
  }

  /** The columns of the failed blocks of row r, in order. */
  method FailedColumns(pc: Params, g: Grid, sh: Shape, r: nat) returns (cols: seq<nat>)
    requires Fits(g, sh) && r < sh.rows
    ensures NoRepeats(cols) && |cols| == CountTrue(g[r])
    ensures forall i :: 0 <= i < |cols| ==> cols[i] < sh.cols
    ensures forall c :: 0 <= c < sh.cols && g[r][c] ==> c in cols
    ensures RowIdsOf(pc, r, cols) == RowIds(pc, g, r, sh.cols)
  {
    hide RowCol2Bid;
    cols := [];
    for j := 0 to sh.cols
      invariant NoRepeats(cols) && |cols| == CountTrue(g[r][..j])
      invariant forall i :: 0 <= i < |cols| ==> cols[i] < j
      invariant forall c :: 0 <= c < j && g[r][c] ==> c in cols
      invariant RowIdsOf(pc, r, cols) == RowIds(pc, g, r, j)
    {
      assert g[r][..j + 1][..j] == g[r][..j];
      if g[r][j] {
        assert RowIdsOf(pc, r, cols + [j]) == RowIdsOf(pc, r, cols) + [RowCol2Bid(pc, r, j)];
        cols := cols + [j];
      }
    }
    assert g[r][..sh.cols] == g[r];
  }

  function RowIdsOf(pc: Params, r: nat, cols: seq<nat>): (ids: seq<nat>)
    ensures |ids| == |cols| && forall i :: 0 <= i < |ids| ==> ids[i] == RowCol2Bid(pc, r, cols[i])
  {
    seq(|cols|, i requires 0 <= i < |cols| => RowCol2Bid(pc, r, cols[i]))
  }

  /** Replaces every column of the groups by the block of row r in that column. */
  method ToRowIds(pc: Params, r: nat, groups: seq<seq<nat>>) returns (ids: seq<seq<nat>>)
    ensures Concat(ids) == RowIdsOf(pc, r, Concat(groups))
    ensures |ids| == |groups| && forall i :: 0 <= i < |ids| ==> ids[i] == RowIdsOf(pc, r, groups[i])
  {
    ids := [];
    for i := 0 to |groups|
      invariant Concat(ids) == RowIdsOf(pc, r, Concat(groups[..i]))
      invariant |ids| == i && forall a :: 0 <= a < i ==> ids[a] == RowIdsOf(pc, r, groups[a])
    {
      ghost var before := ids;
      ids := ids + [RowIdsOf(pc, r, groups[i])];
      assert ids[..|ids| - 1] == before && groups[..i + 1][..i] == groups[..i];
    }
    assert groups[..|groups|] == groups;
  }

  /** Reading the columns back. */
  lemma ColumnsBack(pc: Params, r: nat, cols: seq<nat>)
    requires r < Rows(pc) && forall i :: 0 <= i < |cols| ==> cols[i] < Cols(pc)
    ensures ColumnsOf(pc, RowIdsOf(pc, r, cols)) == cols
  {
    hide RowCol2Bid, Bid2RowCol, BlockCount;
    forall i | 0 <= i < |cols|
      ensures ColumnsOf(pc, RowIdsOf(pc, r, cols))[i] == cols[i]
    {
      LayoutRoundTrip(pc, r, cols[i]);
    }
  }

  lemma GroupColumnsBack(pc: Params, r: nat, groups: seq<seq<nat>>, ids: seq<seq<nat>>)
    requires r < Rows(pc) && |ids| == |groups| && forall i :: 0 <= i < |ids| ==> ids[i] == RowIdsOf(pc, r, groups[i])
    requires forall i :: 0 <= i < |Concat(groups)| ==> Concat(groups)[i] < Cols(pc)
    ensures GroupColumns(pc, ids) == groups
  {
    hide RowIdsOf, ColumnsOf, Concat;
    forall i | 0 <= i < |groups|
      ensures ColumnsOf(pc, ids[i]) == groups[i]
    {
      forall j | 0 <= j < |groups[i]|
        ensures groups[i][j] < Cols(pc)
      {
        var at := InConcat(groups, i, j);
      }
      ColumnsBack(pc, r, groups[i]);
    }
  }

  lemma RowHelpersOk(pc: Params, g: Grid, sh: Shape, r: nat, cols: seq<nat>, failedCols: seq<nat>, ids: seq<nat>)
    requires ForCode(sh, pc) && Fits(g, sh) && r < sh.rows && ids == RowIdsOf(pc, r, cols)
    requires NoRepeats(cols) && forall i :: 0 <= i < |cols| ==> cols[i] < sh.cols && cols[i] !in failedCols
    requires forall c :: 0 <= c < sh.cols && g[r][c] ==> c in failedCols
    ensures NoRepeats(ids)
    ensures forall i :: 0 <= i < |ids| ==> LiveInRow(ids[i], pc, g, r)
  {
    hide RowCol2Bid;
    forall i, j | 0 <= i < j < |ids|
      ensures ids[i] != ids[j]
    {
      if ids[i] == ids[j] {
        BidsApart(pc, r, cols[i], r, cols[j]);
      }
    }
  }

  ghost predicate LiveInRow(id: nat, pc: Params, g: Grid, r: nat)
    requires |g| == Rows(pc) && forall q :: 0 <= q < Rows(pc) ==> |g[q]| == Cols(pc)
    requires r < Rows(pc)
  {
    exists c :: 0 <= c < Cols(pc) && id == RowCol2Bid(pc, r, c) && !g[r][c]
  }

  // The plans.

  /** What is left in a line is what its cells in the grid say. */
  lemma LeftIsMarked(g: Grid, sh: Shape, pc: Params, failures: seq<nat>, repaired: seq<nat>)
    requires ForCode(sh, pc) && Fits(g, sh) && Tracks(g, pc, failures, repaired)
    ensures forall c :: 0 <= c < Cols(pc) ==> CountTrue(Col(g, c)) == |LeftInColumn(pc, failures, repaired, c)|
    ensures forall r :: 0 <= r < Rows(pc) ==> CountTrue(g[r]) == |LeftInRow(pc, failures, repaired, r)|
  {
    hide RowCol2Bid;
    forall c: nat | c < Cols(pc)
      ensures CountTrue(Col(g, c)) == |LeftInColumn(pc, failures, repaired, c)|
    {
      CountIsSize(Col(g, c));
      assert Trues(Col(g, c)) == LeftInColumn(pc, failures, repaired, c);
    }
    forall r: nat | r < Rows(pc)
      ensures CountTrue(g[r]) == |LeftInRow(pc, failures, repaired, r)|
    {
      CountIsSize(g[r]);
      assert Trues(g[r]) == LeftInRow(pc, failures, repaired, r);
    }
  }

  lemma ColumnFailures(g: Grid, sh: Shape, pc: Params, failures: seq<nat>, repaired: seq<nat>, c: nat)
    requires ForCode(sh, pc) && Fits(g, sh) && c < sh.cols && Tracks(g, pc, failures, repaired)
    ensures var ids := ColumnIds(pc, g, c, sh.rows);
            && NoRepeats(ids) && (forall i :: 0 <= i < |ids| ==> InColumn(ids[i], pc, c))
            && forall r :: 0 <= r < Rows(pc) ==> (RowCol2Bid(pc, r, c) in ids <==> Open(RowCol2Bid(pc, r, c), failures, repaired))
  {
    hide RowCol2Bid;
    var ids := ColumnIds(pc, g, c, sh.rows);
    ColumnIdsNoRepeats(pc, g, c, sh.rows);
    forall i | 0 <= i < |ids|
      ensures InColumn(ids[i], pc, c)
    {
      ColumnIdsMember(pc, g, c, sh.rows, ids[i]);
      assert ids[i] in ids;
    }
    forall r: nat | r < Rows(pc)
      ensures RowCol2Bid(pc, r, c) in ids <==> Open(RowCol2Bid(pc, r, c), failures, repaired)
    {
      ColumnIdsMember(pc, g, c, sh.rows, RowCol2Bid(pc, r, c));
      if RowCol2Bid(pc, r, c) in ids {
        var q :| 0 <= q < sh.rows && g[q][c] && RowCol2Bid(pc, r, c) == RowCol2Bid(pc, q, c);
        BidsApart(pc, q, c, r, c);
      }
    }
  }

  lemma RowFailures(g: Grid, sh: Shape, pc: Params, failures: seq<nat>, repaired: seq<nat>, r: nat)
    requires ForCode(sh, pc) && Fits(g, sh) && r < sh.rows && Tracks(g, pc, failures, repaired)
    ensures var ids := RowIds(pc, g, r, sh.cols);
            && NoRepeats(ids) && (forall i :: 0 <= i < |ids| ==> InRow(ids[i], pc, r))
            && forall c :: 0 <= c < Cols(pc) ==> (RowCol2Bid(pc, r, c) in ids <==> Open(RowCol2Bid(pc, r, c), failures, repaired))
  {
    hide RowCol2Bid;
    var ids := RowIds(pc, g, r, sh.cols);
    RowIdsNoRepeats(pc, g, r, sh.cols);
    forall i | 0 <= i < |ids|
      ensures InRow(ids[i], pc, r)
    {
      RowIdsMember(pc, g, r, sh.cols, ids[i]);
      assert ids[i] in ids;
    }
    forall c: nat | c < Cols(pc)
      ensures RowCol2Bid(pc, r, c) in ids <==> Open(RowCol2Bid(pc, r, c), failures, repaired)
    {
      RowIdsMember(pc, g, r, sh.cols, RowCol2Bid(pc, r, c));
      if RowCol2Bid(pc, r, c) in ids {
        var q :| 0 <= q < sh.cols && g[r][q] && RowCol2Bid(pc, r, c) == RowCol2Bid(pc, r, q);
        BidsApart(pc, r, q, r, c);
      }
    }
  }

  lemma ColumnHelpOk(g: Grid, sh: Shape, pc: Params, failures: seq<nat>, repaired: seq<nat>, c: nat, help: seq<nat>)
    requires ForCode(sh, pc) && Fits(g, sh) && c < sh.cols && Tracks(g, pc, failures, repaired)
    requires help <= LiveIds(pc, g, c, sh.rows)
    ensures NoRepeats(help) && forall i :: 0 <= i < |help| ==> InColumn(help[i], pc, c) && !Open(help[i], failures, repaired)
    ensures forall r, q :: 0 <= r < q < Rows(pc) && RowCol2Bid(pc, q, c) in help && !Open(RowCol2Bid(pc, r, c), failures, repaired) ==>
              RowCol2Bid(pc, r, c) in help
  {
    hide RowCol2Bid, LiveIds;
    PrefixIsLive(pc, g, sh, c, help);
    forall i | 0 <= i < |help|
      ensures InColumn(help[i], pc, c) && !Open(help[i], failures, repaired)
    {
      assert LiveInColumn(help[i], pc, g, c);
    }
    forall r: nat, q: nat | r < q < Rows(pc) && RowCol2Bid(pc, q, c) in help && !Open(RowCol2Bid(pc, r, c), failures, repaired)
      ensures RowCol2Bid(pc, r, c) in help
    {
      PrefixSkipsNone(pc, g, sh, c, help, r, q);
    }
  }

  // The plans.

  lemma ColumnPlanIsOk(p: RepairPlan, code: Code, g: Grid, sh: Shape, failures: seq<nat>, repaired: seq<nat>, c: nat)
    requires sh == ShapeOf(code.pc, code.hv) && Fits(g, sh) && c < sh.peelCols && Tracks(g, code.pc, failures, repaired)
    requires 0 < CountTrue(Col(g, c)) <= code.pc.m2 && p.localOrColumn && p.failureIdxs == ColumnIds(code.pc, g, c, sh.rows)
    requires |Concat(p.helpBlocks)| == code.pc.k2 && Concat(p.helpBlocks) <= LiveIds(code.pc, g, c, sh.rows)
    requires p.parityIdxs == [] && ColumnGroups(p.helpBlocks, code.flat)
    ensures PlanOk(p, code, failures, repaired)
  {
    hide RowCol2Bid, LiveIds, Tracks, InColumn, Open, LeftInColumn, ColumnIds, Concat, NoRepeats;
    LeftIsMarked(g, sh, code.pc, failures, repaired);
    ColumnFailures(g, sh, code.pc, failures, repaired, c);
    ColumnHelpOk(g, sh, code.pc, failures, repaired, c, Concat(p.helpBlocks));
    assert ColumnPlanOk(p, code, failures, repaired, c);
  }

  lemma RowPlanIsOk(p: RepairPlan, code: Code, g: Grid, sh: Shape, failures: seq<nat>, repaired: seq<nat>, r: nat)
    requires sh == ShapeOf(code.pc, code.hv) && Fits(g, sh) && r < sh.peelRows && Tracks(g, code.pc, failures, repaired)
    requires 0 < CountTrue(g[r]) <= code.pc.m1 && !p.localOrColumn && p.failureIdxs == RowIds(code.pc, g, r, sh.cols)
    requires forall c :: 0 <= c < sh.peelCols ==> CountTrue(Col(g, c)) == 0 || CountTrue(Col(g, c)) > code.pc.m2
    requires forall q :: 0 <= q < r ==> CountTrue(g[q]) == 0 || CountTrue(g[q]) > code.pc.m1
    requires NoRepeats(Concat(p.helpBlocks)) && |Concat(p.helpBlocks)| == code.pc.k1
    requires forall i :: 0 <= i < |Concat(p.helpBlocks)| ==> LiveInRow(Concat(p.helpBlocks)[i], code.pc, g, r)
    requires Rs.ChosenFor(code.pc.k1, code.rowPartition, ColumnsOf(code.pc, p.failureIdxs), code.partialScheme, p.parityIdxs,
                          GroupColumns(code.pc, p.helpBlocks))
    ensures PlanOk(p, code, failures, repaired)
  {
    hide RowCol2Bid, LeftInColumn, LeftInRow, RowIds, Concat, NoRepeats, Rs.ChosenFor;
    LeftIsMarked(g, sh, code.pc, failures, repaired);
    RowFailures(g, sh, code.pc, failures, repaired, r);
    var help := Concat(p.helpBlocks);
    forall i | 0 <= i < |help|
      ensures InRow(help[i], code.pc, r) && !Open(help[i], failures, repaired)
    {
      assert LiveInRow(help[i], code.pc, g, r);
    }
    assert RowPlanOk(p, code, failures, repaired, r);
  }

  lemma OneMorePlan(plans: seq<RepairPlan>, p: RepairPlan, code: Code, failures: seq<nat>)
    requires PlansOk(plans, code, failures) && PlanOk(p, code, failures, Repaired(plans))
    ensures PlansOk(plans + [p], code, failures) && Repaired(plans + [p]) == Repaired(plans) + p.failureIdxs
  {
    hide PlanOk;
    var more := plans + [p];
    assert more[..|plans|] == plans;
    forall i | 0 <= i < |more|
      ensures PlanOk(more[i], code, failures, Repaired(more[..i]))
    {
      assert i < |plans| ==> more[..i] == plans[..i];
    }
  }

  /** What the planner keeps: good plans so far, and a ledger of what they leave failed. */
  ghost predicate Planning(l: Ledger, sh: Shape, code: Code, failures: seq<nat>, plans: seq<RepairPlan>) {
    && sh == ShapeOf(code.pc, code.hv) && Peels(l, Failed(code.pc, failures), sh)
    && PlansOk(plans, code, failures) && Tracks(l.failed, code.pc, failures, Repaired(plans))
  }

  /** Plans the repair of one column and clears it. */
  method PlanColumn(l0: Ledger, sh: Shape, code: Code, ghost failures: seq<nat>, plans0: seq<RepairPlan>, c: nat)
    returns (l: Ledger, plans: seq<RepairPlan>)
    requires Planning(l0, sh, code, failures, plans0) && c < sh.peelCols && 0 < l0.colCnt[c] <= sh.perCol
    ensures Planning(l, sh, code, failures, plans) && l.failed == ClearCol(l0.failed, sh, c) && l.num < l0.num
  {
    hide PlanOk, PlansOk, RowCol2Bid, LiveIds, ColumnGroups, KeepsStuck, Within, Concat;
    var help := ColumnHelpers(code.pc, l0.failed, sh, c);
    var groups := Grouped(help, code.flat);
    var cleared;
    l, cleared := ClearColumn(code.pc, l0, sh, c);
    var plan := RepairPlan(true, cleared, [], groups);
    ColumnPlanIsOk(plan, code, l0.failed, sh, failures, Repaired(plans0), c);
    OneMorePlan(plans0, plan, code, failures);
    TrackColumn(l0.failed, sh, code.pc, failures, Repaired(plans0), c);
    PeelColStep(l0, l, Failed(code.pc, failures), sh, c);
    plans := plans0 + [plan];
  }

  /** Plans the repair of one row and clears it. */
  method PlanRow(l0: Ledger, sh: Shape, code: Code, ghost failures: seq<nat>, plans0: seq<RepairPlan>, r: nat)
    returns (l: Ledger, plans: seq<RepairPlan>)
    requires Planning(l0, sh, code, failures, plans0) && ColumnsDone(l0, sh, sh.peelCols)
    requires r < sh.peelRows && 0 < l0.rowCnt[r] <= sh.perRow && IsPartition(code.rowPartition, code.pc.k1 + code.pc.m1)
    requires forall q :: 0 <= q < r ==> l0.rowCnt[q] == 0 || l0.rowCnt[q] > sh.perRow
    ensures Planning(l, sh, code, failures, plans) && l.failed == ClearRow(l0.failed, sh, r) && l.num < l0.num
  {
    hide PlanOk, PlansOk, RowCol2Bid, KeepsStuck, Within, Concat, Rs.ChosenFor, Rs.HelpersOk, RowIdsOf, RowIds, ColumnsOf;
    var pc := code.pc;
    var cols := FailedColumns(pc, l0.failed, sh, r);
    var parityIdxs, groups := Rs.HelpBlocksForMultiBlocksRepair(pc.k1, pc.m1, code.rowPartition, cols, code.partialScheme);
    HelpersFacts(groups, cols, pc.k1, pc.k1 + pc.m1);
    var ids := ToRowIds(pc, r, groups);
    RowHelpersOk(pc, l0.failed, sh, r, Concat(groups), cols, Concat(ids));
    SameSize(pc, r, Concat(groups));
    ColumnsBack(pc, r, cols);
    GroupColumnsBack(pc, r, groups, ids);
    var cleared;
    l, cleared := ClearRowCells(pc, l0, sh, r);
    var plan := RepairPlan(false, cleared, parityIdxs, ids);
    RowPlanIsOk(plan, code, l0.failed, sh, failures, Repaired(plans0), r);
    OneMorePlan(plans0, plan, code, failures);
    TrackRow(l0.failed, sh, pc, failures, Repaired(plans0), r);
    PeelRowStep(l0, l, Failed(pc, failures), sh, r);
    plans := plans0 + [plan];
  }

  lemma SameSize(pc: Params, r: nat, cols: seq<nat>)
    ensures |RowIdsOf(pc, r, cols)| == |cols|
  {
  }

  lemma HelpersFacts(groups: Partition, failures: seq<nat>, k: nat, n: nat)
    requires Rs.HelpersOk(groups, failures, k, n)
    ensures NoRepeats(Concat(groups)) && |Concat(groups)| == k
    ensures forall a :: 0 <= a < |Concat(groups)| ==> Concat(groups)[a] < n && Concat(groups)[a] !in failures
  {
  }

  /** One pass over the columns. */
  method PlanColumns(l0: Ledger, sh: Shape, code: Code, ghost failures: seq<nat>, plans0: seq<RepairPlan>)
    returns (l: Ledger, plans: seq<RepairPlan>)
    requires Planning(l0, sh, code, failures, plans0)
    ensures Planning(l, sh, code, failures, plans) && l.num <= l0.num && ColumnsDone(l, sh, sh.peelCols)
  {
    hide Tracks, PlansOk, KeepsStuck, Within, RowCol2Bid;
    l, plans := l0, plans0;
    for i := 0 to sh.peelCols
      invariant Planning(l, sh, code, failures, plans) && l.num <= l0.num && ColumnsDone(l, sh, i)
    {
      if l.colCnt[i] <= sh.perCol && l.colCnt[i] > 0 {
        ghost var before := l;
        l, plans := PlanColumn(l, sh, code, failures, plans, i);
        OtherColumnsSame(before, l, sh, i);
      }
    }
  }

  /** Plans the first row that is within its limit, if there is one. */
  method PlanOneRow(l0: Ledger, sh: Shape, code: Code, ghost failures: seq<nat>, plans0: seq<RepairPlan>)
    returns (l: Ledger, plans: seq<RepairPlan>, maxRow: int)
    requires Planning(l0, sh, code, failures, plans0) && ColumnsDone(l0, sh, sh.peelCols)
    requires IsPartition(code.rowPartition, code.pc.k1 + code.pc.m1)
    ensures Planning(l, sh, code, failures, plans)
    ensures maxRow != -1 ==> l.num < l0.num
    ensures maxRow == -1 ==> l == l0 && forall r :: 0 <= r < sh.peelRows ==> l.rowCnt[r] == 0 || l.rowCnt[r] > sh.perRow
  {
    hide Tracks, PlansOk, KeepsStuck, Within, RowCol2Bid, IsPartition;
    l, plans, maxRow := l0, plans0, -1;
    for i := 0 to sh.peelRows
      invariant maxRow == -1 && l == l0 && plans == plans0
      invariant forall r :: 0 <= r < i ==> l.rowCnt[r] == 0 || l.rowCnt[r] > sh.perRow
    {
      if l.rowCnt[i] <= sh.perRow && l.rowCnt[i] > 0 {
        maxRow := i;
        l, plans := PlanRow(l, sh, code, failures, plans, i);
        break;
      }
    }
  }

  /**
   Plans the repair of all failures, or reports that it cannot: it can exactly when no failed blocks are
   stuck. Every failure is then in exactly one plan, and every plan can be carried out in turn.
   */
  method GenerateRepairPlan(code: Code, failureIdxs: seq<nat>) returns (ok: bool, plans: seq<RepairPlan>)
    requires FailuresOk(code.pc, failureIdxs) && IsPartition(code.rowPartition, code.pc.k1 + code.pc.m1)
    ensures ok <==> !HasStuckIds(code.pc, code.hv, failureIdxs)
    ensures PlansOk(plans, code, failureIdxs)
    ensures NoRepeats(Repaired(plans)) && forall i :: 0 <= i < |Repaired(plans)| ==> Repaired(plans)[i] in failureIdxs
    ensures ok ==> forall i :: 0 <= i < |failureIdxs| ==> failureIdxs[i] in Repaired(plans)
  {
    hide PlansOk, RowCol2Bid, HasStuckIds, IsPartition, KeepsStuck;
    var sh := ShapeOf(code.pc, code.hv);
    StoppingByIds(code.pc, code.hv, failureIdxs);
    plans := [];
    var l := MarkFailures(code.pc, sh, failureIdxs);
    NothingRepairedYet(code, sh, failureIdxs);
    while l.num > 0
      invariant Planning(l, sh, code, failureIdxs, plans)
      decreases l.num
    {
      l, plans := PlanColumns(l, sh, code, failureIdxs, plans);
      if l.num == 0 {
        break;
      }
      var maxRow;
      l, plans, maxRow := PlanOneRow(l, sh, code, failureIdxs, plans);
      if maxRow == -1 {
        StuckMeansStopping(l, Failed(code.pc, failureIdxs), sh);
        return false, plans;
      }
    }
    ClearedMeansNone(l, Failed(code.pc, failureIdxs), sh);
    AllRepaired(l, sh, code, failureIdxs, plans);
    return true, plans;
  }

  /** Without global parities no plan reads or repairs a block beyond the column parities. */
  lemma NothingBeyondParities(plans: seq<RepairPlan>, code: Code, failures: seq<nat>, i: nat, id: nat)
    requires PlansOk(plans, code, failures) && code.hv && i < |plans|
    requires id in plans[i].failureIdxs || id in Concat(plans[i].helpBlocks)
    ensures id < (code.pc.k1 + code.pc.m1) * code.pc.k2 + code.pc.k1 * code.pc.m2
  {
    hide Concat, Rs.ChosenFor, ColumnWithin, RowWithin;
    var p, pc := plans[i], code.pc;
    AreaSizes(pc);
    assert PlanOk(p, code, failures, Repaired(plans[..i]));
    if p.localOrColumn {
      var c :| ColumnPlanOk(p, code, failures, Repaired(plans[..i]), c);
      assert InColumn(id, pc, c);
      var r :| 0 <= r < Rows(pc) && id == RowCol2Bid(pc, r, c);
      WithinAreas(pc, r, c);
    } else {
      var r :| RowPlanOk(p, code, failures, Repaired(plans[..i]), r);
      assert InRow(id, pc, r);
      var c :| 0 <= c < Cols(pc) && id == RowCol2Bid(pc, r, c);
      WithinAreas(pc, r, c);
    }
  }

  lemma WithinAreas(pc: Params, r: nat, c: nat)
    requires r < Rows(pc) && c < Cols(pc) && (r < pc.k2 || c < pc.k1)
    ensures RowCol2Bid(pc, r, c) < ColParityEnd(pc)
  {
    hide RowMajor.Pos;
    if r < pc.k2 {
      if c < pc.k1 {
        RowMajor.PosBound(r, c, pc.k1, pc.k2);
      } else {
        RowMajor.PosBound(r, c - pc.k1, pc.m1, pc.k2);
      }
    } else {
      RowMajor.PosBound(r - pc.k2, c, pc.k1, pc.m2);
    }
  }

  lemma NothingRepairedYet(code: Code, sh: Shape, failures: seq<nat>)
    requires ForCode(sh, code.pc)
    ensures Tracks(Failed(code.pc, failures), code.pc, failures, []) && PlansOk([], code, failures)
  {
  }

  /** With nothing failed any more every failure has been repaired. */
  lemma AllRepaired(l: Ledger, sh: Shape, code: Code, failures: seq<nat>, plans: seq<RepairPlan>)
    requires Planning(l, sh, code, failures, plans) && l.num == 0 && FailuresOk(code.pc, failures)
    ensures forall i :: 0 <= i < |failures| ==> failures[i] in Repaired(plans)
  {
    hide RowCol2Bid, Bid2RowCol;
    forall i | 0 <= i < |failures|
      ensures failures[i] in Repaired(plans)
    {
      var (r, c) := Bid2RowCol(code.pc, failures[i]);
      TotalAtLeastRow(l.failed, r);
      CountZero(l.failed[r]);
      assert RowCol2Bid(code.pc, r, c) == failures[i];
    }
  }
}

/** The decodability test and the repair planner of the product codes, with and without global parities. */
module PcRepair {
  import opened Listing
  import opened PcLayout
  import opened Peeling

  /** Every line of a plain product code is repairable. */
  function PlainShape(pc: Params): Shape { Shape(Rows(pc), Cols(pc), Rows(pc), Cols(pc), pc.m1, pc.m2) }

  /** Without global parities only data rows and data columns are repairable. */
  function HvShape(pc: Params): Shape { Shape(Rows(pc), Cols(pc), pc.k2, pc.k1, pc.m1, pc.m2) }

  /** The shape of the code: with global parities, or without. */
  function ShapeOf(pc: Params, hv: bool): (sh: Shape)
    ensures ForCode(sh, pc) && sh.perRow == pc.m1 && sh.perCol == pc.m2
  {
    if hv then HvShape(pc) else PlainShape(pc)
  }

  // Stopping sets by block ids.

  /** How many rows and columns the program tries to repair. */
  function RepairableRows(pc: Params, hv: bool): nat { if hv then pc.k2 else pc.k2 + pc.m2 }

  function RepairableCols(pc: Params, hv: bool): nat { if hv then pc.k1 else pc.k1 + pc.m1 }

  /** Where the listed blocks are in a row and in a column. */
  ghost function InRowOf(pc: Params, ids: set<nat>, r: nat): set<nat> {
    set c: nat | c < pc.k1 + pc.m1 && RowCol2Bid(pc, r, c) in ids
  }

  ghost function InColOf(pc: Params, ids: set<nat>, c: nat): set<nat> {
    set r: nat | r < pc.k2 + pc.m2 && RowCol2Bid(pc, r, c) in ids
  }

  /** Every repairable row that has any of the blocks has more than m1 of them, every repairable column more than m2. */
  ghost predicate StuckIds(pc: Params, hv: bool, ids: set<nat>) {
    && (forall r :: 0 <= r < RepairableRows(pc, hv) ==> InRowOf(pc, ids, r) == {} || |InRowOf(pc, ids, r)| > pc.m1)
    && (forall c :: 0 <= c < RepairableCols(pc, hv) ==> InColOf(pc, ids, c) == {} || |InColOf(pc, ids, c)| > pc.m2)
  }

  ghost predicate AllIn(ids: set<nat>, failures: seq<nat>) { forall x :: x in ids ==> x in failures }

  /** Some of the failed blocks cannot be peeled off. */
  ghost predicate HasStuckIds(pc: Params, hv: bool, failures: seq<nat>) {
    exists ids: set<nat> :: ids != {} && AllIn(ids, failures) && StuckIds(pc, hv, ids)
  }

  ghost function Trues(s: seq<bool>): set<nat> { set i: nat | i < |s| && s[i] }

  lemma {:induction false} CountIsSize(s: seq<bool>)
    ensures CountTrue(s) == |Trues(s)|
  {
    if s != [] {
      var n := |s| - 1;
      CountIsSize(s[..n]);
      if s[n] {
        assert Trues(s) == Trues(s[..n]) + {n};
      } else {
        assert Trues(s) == Trues(s[..n]);
      }
    }
  }

  /** Grid and ids mark the same blocks. */
  ghost predicate SameMarks(pc: Params, t: Grid, ids: set<nat>, sh: Shape)
    requires ForCode(sh, pc) && Fits(t, sh)
  {
    forall r, c :: 0 <= r < Rows(pc) && 0 <= c < Cols(pc) ==> (t[r][c] <==> RowCol2Bid(pc, r, c) in ids)
  }

  lemma MarkedLines(pc: Params, t: Grid, ids: set<nat>, sh: Shape)
    requires ForCode(sh, pc) && Fits(t, sh) && SameMarks(pc, t, ids, sh)
    ensures forall r :: 0 <= r < Rows(pc) ==> CountTrue(t[r]) == |InRowOf(pc, ids, r)|
    ensures forall c :: 0 <= c < Cols(pc) ==> CountTrue(Col(t, c)) == |InColOf(pc, ids, c)|
  {
    hide RowCol2Bid;
    forall r: nat | r < Rows(pc)
      ensures CountTrue(t[r]) == |InRowOf(pc, ids, r)|
    {
      CountIsSize(t[r]);
      assert Trues(t[r]) == InRowOf(pc, ids, r);
    }
    forall c: nat | c < Cols(pc)
      ensures CountTrue(Col(t, c)) == |InColOf(pc, ids, c)|
    {
      CountIsSize(Col(t, c));
      assert Trues(Col(t, c)) == InColOf(pc, ids, c);
    }
  }

  lemma StuckByIds(pc: Params, hv: bool, t: Grid, ids: set<nat>)
    requires Fits(t, ShapeOf(pc, hv)) && SameMarks(pc, t, ids, ShapeOf(pc, hv))
    ensures IsStopping(t, ShapeOf(pc, hv)) <==> StuckIds(pc, hv, ids)
  {
    hide RowCol2Bid, InRowOf, InColOf;
    var sh := ShapeOf(pc, hv);
    MarkedLines(pc, t, ids, sh);
    assert sh.peelRows == RepairableRows(pc, hv) && sh.peelCols == RepairableCols(pc, hv);
    assert forall r :: 0 <= r < Rows(pc) ==> (|InRowOf(pc, ids, r)| == 0 <==> InRowOf(pc, ids, r) == {});
    assert forall c :: 0 <= c < Cols(pc) ==> (|InColOf(pc, ids, c)| == 0 <==> InColOf(pc, ids, c) == {});
  }

  ghost function MarkedIds(pc: Params, t: Grid): (ids: set<nat>)
    requires |t| == Rows(pc) && forall r :: 0 <= r < Rows(pc) ==> |t[r]| == Cols(pc)
  {
    set r: nat, c: nat | r < Rows(pc) && c < Cols(pc) && t[r][c] :: RowCol2Bid(pc, r, c)
  }

  lemma MarkedIdsMark(pc: Params, t: Grid, sh: Shape)
    requires ForCode(sh, pc) && Fits(t, sh)
    ensures SameMarks(pc, t, MarkedIds(pc, t), sh)
  {
    hide RowCol2Bid;
    forall r: nat, c: nat | r < Rows(pc) && c < Cols(pc)
      ensures t[r][c] <==> RowCol2Bid(pc, r, c) in MarkedIds(pc, t)
    {
      if RowCol2Bid(pc, r, c) in MarkedIds(pc, t) {
        var q: nat, b: nat :| q < Rows(pc) && b < Cols(pc) && t[q][b] && RowCol2Bid(pc, q, b) == RowCol2Bid(pc, r, c);
        BidsApart(pc, q, b, r, c);
      }
    }
  }

  ghost function GridOf(pc: Params, ids: set<nat>): (t: Grid)
    ensures |t| == Rows(pc) && forall r :: 0 <= r < Rows(pc) ==> |t[r]| == Cols(pc)
    ensures forall r, c :: 0 <= r < Rows(pc) && 0 <= c < Cols(pc) ==> (t[r][c] <==> RowCol2Bid(pc, r, c) in ids)
  {
    seq(Rows(pc), r requires 0 <= r < Rows(pc) => seq(Cols(pc), c requires 0 <= c < Cols(pc) => RowCol2Bid(pc, r, c) in ids))
  }

  /** The verdict of the peeling, by block ids. */
  lemma StoppingByIds(pc: Params, hv: bool, failures: seq<nat>)
    requires FailuresOk(pc, failures)
    ensures HasStoppingSet(Failed(pc, failures), ShapeOf(pc, hv)) <==> HasStuckIds(pc, hv, failures)
  {
    hide RowCol2Bid, Bid2RowCol, BlockCount, IsStopping, StuckIds, ShapeOf;
    var g, sh := Failed(pc, failures), ShapeOf(pc, hv);
    if HasStoppingSet(g, sh) {
      var t: Grid :| IsStuckSet(t, g, sh) && NonEmpty(t, sh);
      MarkedIdsMark(pc, t, sh);
      StuckByIds(pc, hv, t, MarkedIds(pc, t));
      var r: nat, c: nat :| r < Rows(pc) && c < Cols(pc) && t[r][c];
      assert RowCol2Bid(pc, r, c) in MarkedIds(pc, t);
    }
    if HasStuckIds(pc, hv, failures) {
      var ids: set<nat> :| ids != {} && AllIn(ids, failures) && StuckIds(pc, hv, ids);
      var t := GridOf(pc, ids);
      StuckByIds(pc, hv, t, ids);
      var x :| x in ids;
      var i :| 0 <= i < |failures| && failures[i] == x;
      var (r, c) := Bid2RowCol(pc, x);
      assert t[r][c];
      assert IsStuckSet(t, g, sh);
    }
  }

  /** Distinct ids of blocks of the stripe. */
  ghost predicate FailuresOk(pc: Params, ids: seq<nat>) {
    NoRepeats(ids) && forall i :: 0 <= i < |ids| ==> ids[i] < BlockCount(pc)
  }

  /** The grid in which exactly the listed blocks have failed. */
  ghost function Failed(pc: Params, ids: seq<nat>): (g: Grid)
    ensures |g| == Rows(pc) && forall r :: 0 <= r < Rows(pc) ==> |g[r]| == Cols(pc)
    ensures forall r, c :: 0 <= r < Rows(pc) && 0 <= c < Cols(pc) ==> (g[r][c] <==> RowCol2Bid(pc, r, c) in ids)
  {
    seq(Rows(pc), r requires 0 <= r < Rows(pc) => seq(Cols(pc), c requires 0 <= c < Cols(pc) => RowCol2Bid(pc, r, c) in ids))
  }

  ghost predicate ForCode(sh: Shape, pc: Params) {
    ShapeOk(sh) && sh.rows == Rows(pc) && sh.cols == Cols(pc)
  }

  /** Adding one more failed block marks one more cell. */
  lemma FailedMore(pc: Params, ids: seq<nat>, id: nat)
    requires id < BlockCount(pc) && id !in ids
    ensures var (r, c) := Bid2RowCol(pc, id);
            !Failed(pc, ids)[r][c] && Failed(pc, ids + [id]) == SetCell(Failed(pc, ids), r, c, true)
  {
    hide RowCol2Bid, Bid2RowCol, BlockCount;
    var (r, c) := Bid2RowCol(pc, id);
    var g, g' := Failed(pc, ids), Failed(pc, ids + [id]);
    forall i: nat, j: nat | i < Rows(pc) && j < Cols(pc)
      ensures g'[i][j] == SetCell(g, r, c, true)[i][j]
    {
      if RowCol2Bid(pc, i, j) == id {
        BidsApart(pc, i, j, r, c);
      }
      assert RowCol2Bid(pc, i, j) in ids + [id] <==> RowCol2Bid(pc, i, j) in ids || RowCol2Bid(pc, i, j) == id;
    }
    forall i: nat | i < Rows(pc)
      ensures g'[i] == SetCell(g, r, c, true)[i]
    {
    }
  }

  lemma BlankIsNothing(pc: Params, sh: Shape)
    requires ForCode(sh, pc)
    ensures Blank(sh).failed == Failed(pc, [])
  {
    forall r | 0 <= r < Rows(pc)
      ensures Blank(sh).failed[r] == Failed(pc, [])[r]
    {
    }
  }

  /** One more failure is one more marked cell, and the counters follow. */
  lemma MarkStep(pc: Params, sh: Shape, ids: seq<nat>, i: nat, l: Ledger)
    requires ForCode(sh, pc) && FailuresOk(pc, ids) && i < |ids|
    requires Counted(l, sh) && l.failed == Failed(pc, ids[..i])
    ensures var (row, col) := Bid2RowCol(pc, ids[i]);
            && Counted(Adjust(l, row, col, true, 1), sh)
            && Adjust(l, row, col, true, 1).failed == Failed(pc, ids[..i + 1])
  {
    var (row, col) := Bid2RowCol(pc, ids[i]);
    assert ids[..i + 1] == ids[..i] + [ids[i]] && ids[i] !in ids[..i];
    FailedMore(pc, ids[..i], ids[i]);
    MarkCellCounts(l, sh, row, col);
  }

  /** Enters the failures into a fresh ledger. */
  method MarkFailures(pc: Params, sh: Shape, failureIdxs: seq<nat>) returns (l: Ledger)
    requires ForCode(sh, pc) && FailuresOk(pc, failureIdxs)
    ensures Counted(l, sh) && l.failed == Failed(pc, failureIdxs)
    ensures Peels(l, Failed(pc, failureIdxs), sh)
  {
    l := Blank(sh);
    BlankCounted(sh);
    BlankIsNothing(pc, sh);
    for i := 0 to |failureIdxs|
      invariant Counted(l, sh) && l.failed == Failed(pc, failureIdxs[..i])
    {
      var (row, col) := Bid2RowCol(pc, failureIdxs[i]);
      MarkStep(pc, sh, failureIdxs, i, l);
      l := Adjust(l, row, col, true, 1);
    }
    assert failureIdxs[..|failureIdxs|] == failureIdxs;
  }

  /** The ids of the failed blocks in the first n rows of column c, and in the first n columns of row r. */
  function ColumnIds(pc: Params, g: Grid, c: nat, n: nat): seq<nat>
    requires n <= |g| && forall i :: 0 <= i < |g| ==> c < |g[i]|
  {
    if n == 0 then []
    else ColumnIds(pc, g, c, n - 1) + (if g[n - 1][c] then [RowCol2Bid(pc, n - 1, c)] else [])
  }

  function RowIds(pc: Params, g: Grid, r: nat, n: nat): seq<nat>
    requires r < |g| && n <= |g[r]|
  {
    if n == 0 then []
    else RowIds(pc, g, r, n - 1) + (if g[r][n - 1] then [RowCol2Bid(pc, r, n - 1)] else [])
  }

  /** Column c of `now` is clear in its first j rows; all the rest is as in `before`. */
  ghost predicate ClearedTo(now: Grid, before: Grid, sh: Shape, c: nat, j: nat) {
    && Fits(now, sh) && Fits(before, sh)
    && forall a, b :: 0 <= a < sh.rows && 0 <= b < sh.cols ==> now[a][b] == (before[a][b] && (b != c || a >= j))
  }

  lemma ClearedToStep(now: Grid, before: Grid, sh: Shape, c: nat, j: nat)
    requires ClearedTo(now, before, sh, c, j) && j < sh.rows && c < sh.cols
    ensures now[j][c] == before[j][c]
    ensures now[j][c] ==> ClearedTo(SetCell(now, j, c, false), before, sh, c, j + 1)
    ensures !now[j][c] ==> ClearedTo(now, before, sh, c, j + 1)
  {
  }

  lemma ColumnIsClear(l0: Ledger, l: Ledger, sh: Shape, c: nat)
    requires Counted(l0, sh) && Counted(l, sh) && c < sh.cols && ClearedTo(l.failed, l0.failed, sh, c, sh.rows)
    ensures l.failed == ClearCol(l0.failed, sh, c) && l.colCnt[c] == 0
  {
    CountZero(Col(l.failed, c));
    forall a | 0 <= a < sh.rows
      ensures l.failed[a] == ClearCol(l0.failed, sh, c)[a]
    {
    }
  }

  /** Clears column c of the ledger, cell by cell, listing the ids it clears. */
  method ClearColumn(pc: Params, l0: Ledger, sh: Shape, c: nat) returns (l: Ledger, cleared: seq<nat>)
    requires Counted(l0, sh) && c < sh.cols
    ensures Counted(l, sh) && l.failed == ClearCol(l0.failed, sh, c)
    ensures l.num == l0.num - l0.colCnt[c]
    ensures cleared == ColumnIds(pc, l0.failed, c, sh.rows)
  {
    l, cleared := l0, [];
    for j := 0 to sh.rows
      invariant Counted(l, sh) && l0.num - l.num == l0.colCnt[c] - l.colCnt[c]
      invariant ClearedTo(l.failed, l0.failed, sh, c, j)
      invariant cleared == ColumnIds(pc, l0.failed, c, j)
    {
      ClearedToStep(l.failed, l0.failed, sh, c, j);
      if l.failed[j][c] {
        ClearCellCounts(l, sh, j, c);
        cleared := cleared + [RowCol2Bid(pc, j, c)];
        l := Adjust(l, j, c, false, -1);
      }
    }
    ColumnIsClear(l0, l, sh, c);
  }

  /** Row r of `now` is clear in its first j columns; all the rest is as in `before`. */
  ghost predicate RowClearedTo(now: Grid, before: Grid, sh: Shape, r: nat, j: nat) {
    && Fits(now, sh) && Fits(before, sh)
    && forall a, b :: 0 <= a < sh.rows && 0 <= b < sh.cols ==> now[a][b] == (before[a][b] && (a != r || b >= j))
  }

  lemma RowClearedToStep(now: Grid, before: Grid, sh: Shape, r: nat, j: nat)
    requires RowClearedTo(now, before, sh, r, j) && r < sh.rows && j < sh.cols
    ensures now[r][j] == before[r][j]
    ensures now[r][j] ==> RowClearedTo(SetCell(now, r, j, false), before, sh, r, j + 1)
    ensures !now[r][j] ==> RowClearedTo(now, before, sh, r, j + 1)
  {
  }

  /** Clears row r of the ledger, cell by cell, listing the ids it clears. */
  method ClearRowCells(pc: Params, l0: Ledger, sh: Shape, r: nat) returns (l: Ledger, cleared: seq<nat>)
    requires Counted(l0, sh) && r < sh.rows
    ensures Counted(l, sh) && l.failed == ClearRow(l0.failed, sh, r)
    ensures l.num == l0.num - l0.rowCnt[r]
    ensures cleared == RowIds(pc, l0.failed, r, sh.cols)
  {
    l, cleared := l0, [];
    for j := 0 to sh.cols
      invariant Counted(l, sh) && l0.num - l.num == l0.rowCnt[r] - l.rowCnt[r]
      invariant RowClearedTo(l.failed, l0.failed, sh, r, j)
      invariant cleared == RowIds(pc, l0.failed, r, j)
    {
      RowClearedToStep(l.failed, l0.failed, sh, r, j);
      if l.failed[r][j] {
        ClearCellCounts(l, sh, r, j);
        cleared := cleared + [RowCol2Bid(pc, r, j)];
        l := Adjust(l, r, j, false, -1);
      }
    }
    RowIsClear(l0, l, sh, r);
  }

  lemma RowIsClear(l0: Ledger, l: Ledger, sh: Shape, r: nat)
    requires Counted(l0, sh) && Counted(l, sh) && r < sh.rows && RowClearedTo(l.failed, l0.failed, sh, r, sh.cols)
    ensures l.failed == ClearRow(l0.failed, sh, r) && l.rowCnt[r] == 0
  {
    CountZero(l.failed[r]);
    forall a | 0 <= a < sh.rows
      ensures l.failed[a] == ClearRow(l0.failed, sh, r)[a]
    {
    }
  }

  ghost predicate ColumnsDone(l: Ledger, sh: Shape, upTo: nat)
    requires Counted(l, sh) && upTo <= sh.cols
  {
    forall c :: 0 <= c < upTo ==> l.colCnt[c] == 0 || l.colCnt[c] > sh.perCol
  }

  /** One pass over the columns: clears each repairable column that is within its limit. */
  method PeelColumns(pc: Params, l0: Ledger, sh: Shape, ghost g: Grid) returns (l: Ledger)
    requires Peels(l0, g, sh)
    ensures Peels(l, g, sh) && l.num <= l0.num && ColumnsDone(l, sh, sh.peelCols)
  {
    l := l0;
    for i := 0 to sh.peelCols
      invariant Peels(l, g, sh) && l.num <= l0.num && ColumnsDone(l, sh, i)
    {
      if l.colCnt[i] <= sh.perCol && l.colCnt[i] > 0 {
        ghost var before := l;
        var cleared;
        l, cleared := ClearColumn(pc, l, sh, i);
        PeelColStep(before, l, g, sh, i);
        OtherColumnsSame(before, l, sh, i);
      }
    }
  }

  /** Clearing one column leaves the counts of the others, and empties its own. */
  lemma OtherColumnsSame(l: Ledger, l': Ledger, sh: Shape, c: nat)
    requires Counted(l, sh) && Counted(l', sh) && c < sh.cols && l'.failed == ClearCol(l.failed, sh, c)
    ensures forall j :: 0 <= j < sh.cols ==> l'.colCnt[j] == if j == c then 0 else l.colCnt[j]
  {
    forall j | 0 <= j < sh.cols
      ensures l'.colCnt[j] == if j == c then 0 else l.colCnt[j]
    {
      if j == c {
        CountZero(Col(l'.failed, c));
      } else {
        assert Col(l'.failed, j) == Col(l.failed, j);
      }
    }
  }

  /**
   Whether peeling clears the failures: exactly when no failed blocks are stuck. Each pass clears columns
   first, then every row that is within its limit; without global parities only data rows and data columns.
   */
  method CheckIfDecodable(pc: Params, hv: bool, failureIdxs: seq<nat>) returns (ok: bool)
    requires FailuresOk(pc, failureIdxs)
    ensures ok <==> !HasStuckIds(pc, hv, failureIdxs)
    ensures ok <==> !HasStoppingSet(Failed(pc, failureIdxs), ShapeOf(pc, hv))
  {
    hide StuckIds, HasStuckIds, ShapeOf;
    StoppingByIds(pc, hv, failureIdxs);
    var sh := ShapeOf(pc, hv);
    ghost var g := Failed(pc, failureIdxs);
    var l := MarkFailures(pc, sh, failureIdxs);
    while l.num > 0
      invariant Peels(l, g, sh)
      decreases l.num
    {
      ghost var num0 := l.num;
      l := PeelColumns(pc, l, sh, g);
      if l.num == 0 {
        break;
      }
      ghost var afterColumns := l;
      var maxRow := -1;
      for i := 0 to sh.peelRows
        invariant Peels(l, g, sh) && l.num <= afterColumns.num
        invariant maxRow != -1 ==> l.num < afterColumns.num
        invariant maxRow == -1 ==> l == afterColumns
        invariant maxRow == -1 ==> forall r :: 0 <= r < i ==> l.rowCnt[r] == 0 || l.rowCnt[r] > sh.perRow
      {
        if l.rowCnt[i] <= sh.perRow && l.rowCnt[i] > 0 {
          maxRow := i;
          ghost var before := l;
          var cleared;
          l, cleared := ClearRowCells(pc, l, sh, i);
          PeelRowStep(before, l, g, sh, i);
        }
      }
      if maxRow == -1 {
        StuckMeansStopping(l, g, sh);
        return false;
      }
    }
    ClearedMeansNone(l, g, sh);
    return true;
  }
}

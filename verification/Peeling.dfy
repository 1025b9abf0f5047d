/**
 Row/column peeling of a grid of failed blocks. Peeling gets stuck exactly on a stopping set: a set of
 failures that no repairable row or column can shrink.
 */
module Peeling {

  /** A grid of cells; true marks a failed block. */
  type Grid = seq<seq<bool>>

  /** The grid's size, which rows and columns are repairable, and how many failures each repairs. */
  datatype Shape = Shape(rows: nat, cols: nat, peelRows: nat, peelCols: nat, perRow: nat, perCol: nat)

  ghost predicate ShapeOk(sh: Shape) { sh.peelRows <= sh.rows && sh.peelCols <= sh.cols }

  ghost predicate Fits(g: Grid, sh: Shape) {
    |g| == sh.rows && forall r :: 0 <= r < sh.rows ==> |g[r]| == sh.cols
  }

  function CountTrue(s: seq<bool>): nat {
    if s == [] then 0 else CountTrue(s[..|s| - 1]) + (if s[|s| - 1] then 1 else 0)
  }

  function Col(g: Grid, c: nat): (r: seq<bool>)
    requires forall i :: 0 <= i < |g| ==> c < |g[i]|
    ensures |r| == |g| && forall i :: 0 <= i < |g| ==> r[i] == g[i][c]
  {
    seq(|g|, i requires 0 <= i < |g| => g[i][c])
  }

  function Total(g: Grid): nat {
    if g == [] then 0 else Total(g[..|g| - 1]) + CountTrue(g[|g| - 1])
  }

  ghost predicate Within(t: Grid, g: Grid, sh: Shape)
    requires Fits(t, sh) && Fits(g, sh)
  {
    forall r, c :: 0 <= r < sh.rows && 0 <= c < sh.cols && t[r][c] ==> g[r][c]
  }

  ghost predicate NonEmpty(t: Grid, sh: Shape)
    requires Fits(t, sh)
  {
    exists r, c :: 0 <= r < sh.rows && 0 <= c < sh.cols && t[r][c]
  }

  /** Every repairable line that t touches has more of t than the line can repair. */
  ghost predicate IsStopping(t: Grid, sh: Shape)
    requires ShapeOk(sh) && Fits(t, sh)
  {
    && (forall r :: 0 <= r < sh.peelRows ==> CountTrue(t[r]) == 0 || CountTrue(t[r]) > sh.perRow)
    && (forall c :: 0 <= c < sh.peelCols ==> CountTrue(Col(t, c)) == 0 || CountTrue(Col(t, c)) > sh.perCol)
  }

  ghost predicate IsStuckSet(t: Grid, g: Grid, sh: Shape)
    requires ShapeOk(sh) && Fits(g, sh)
  {
    Fits(t, sh) && Within(t, g, sh) && IsStopping(t, sh)
  }

  /** The failures contain a non-empty stopping set. */
  ghost predicate HasStoppingSet(g: Grid, sh: Shape)
    requires ShapeOk(sh) && Fits(g, sh)
  {
    exists t: Grid :: IsStuckSet(t, g, sh) && NonEmpty(t, sh)
  }

  /** What is still failed contains every stopping set of the original failures. */
  ghost predicate KeepsStuck(cur: Grid, g: Grid, sh: Shape)
    requires ShapeOk(sh) && Fits(cur, sh) && Fits(g, sh)
  {
    forall t: Grid :: IsStuckSet(t, g, sh) ==> Within(t, cur, sh)
  }

  function ClearCol(g: Grid, sh: Shape, c: nat): (r: Grid)
    requires Fits(g, sh)
    ensures Fits(r, sh)
    ensures forall i, j :: 0 <= i < sh.rows && 0 <= j < sh.cols ==> r[i][j] == (g[i][j] && j != c)
  {
    seq(sh.rows, i requires 0 <= i < sh.rows => seq(sh.cols, j requires 0 <= j < sh.cols => g[i][j] && j != c))
  }

  function ClearRow(g: Grid, sh: Shape, q: nat): (r: Grid)
    requires Fits(g, sh)
    ensures Fits(r, sh)
    ensures forall i, j :: 0 <= i < sh.rows && 0 <= j < sh.cols ==> r[i][j] == (g[i][j] && i != q)
  {
    seq(sh.rows, i requires 0 <= i < sh.rows => seq(sh.cols, j requires 0 <= j < sh.cols => g[i][j] && i != q))
  }

  lemma {:induction false} CountSub(s: seq<bool>, t: seq<bool>)
    requires |s| == |t| && forall i :: 0 <= i < |s| && s[i] ==> t[i]
    ensures CountTrue(s) <= CountTrue(t)
  {
    if s != [] {
      var n := |s| - 1;
      assert forall i :: 0 <= i < n && s[..n][i] ==> t[..n][i];
      CountSub(s[..n], t[..n]);
    }
  }

  lemma {:induction false} CountZero(s: seq<bool>)
    ensures CountTrue(s) == 0 <==> forall i :: 0 <= i < |s| ==> !s[i]
  {
    if s != [] {
      CountZero(s[..|s| - 1]);
    }
  }

  lemma {:induction false} CountClear(s: seq<bool>, i: nat)
    requires i < |s| && s[i]
    ensures CountTrue(s[i := false]) == CountTrue(s) - 1
  {
    var n := |s| - 1;
    if i < n {
      CountClear(s[..n], i);
      assert s[i := false][..n] == s[..n][i := false];
    } else {
      assert s[i := false][..n] == s[..n];
    }
  }

  /** Clearing a repairable column removes no stopping set. */
  lemma ClearColKeeps(cur: Grid, g: Grid, sh: Shape, c: nat)
    requires ShapeOk(sh) && Fits(cur, sh) && Fits(g, sh) && KeepsStuck(cur, g, sh)
    requires c < sh.peelCols && CountTrue(Col(cur, c)) <= sh.perCol
    ensures KeepsStuck(ClearCol(cur, sh, c), g, sh)
  {
    forall t: Grid | IsStuckSet(t, g, sh)
      ensures Within(t, ClearCol(cur, sh, c), sh)
    {
      CountSub(Col(t, c), Col(cur, c));
      CountZero(Col(t, c));
      assert forall r :: 0 <= r < sh.rows ==> !Col(t, c)[r];
    }
  }

  lemma ClearRowKeeps(cur: Grid, g: Grid, sh: Shape, q: nat)
    requires ShapeOk(sh) && Fits(cur, sh) && Fits(g, sh) && KeepsStuck(cur, g, sh)
    requires q < sh.peelRows && CountTrue(cur[q]) <= sh.perRow
    ensures KeepsStuck(ClearRow(cur, sh, q), g, sh)
  {
    forall t: Grid | IsStuckSet(t, g, sh)
      ensures Within(t, ClearRow(cur, sh, q), sh)
    {
      CountSub(t[q], cur[q]);
      CountZero(t[q]);
    }
  }

  /** Once nothing is failed there was no stopping set. */
  lemma NothingLeft(cur: Grid, g: Grid, sh: Shape)
    requires ShapeOk(sh) && Fits(cur, sh) && Fits(g, sh) && KeepsStuck(cur, g, sh) && Total(cur) == 0
    ensures !HasStoppingSet(g, sh)
  {
    forall r, c | 0 <= r < sh.rows && 0 <= c < sh.cols
      ensures !cur[r][c]
    {
      TotalAtLeastRow(cur, r);
      CountZero(cur[r]);
    }
  }

  lemma {:induction false} TotalAtLeastRow(g: Grid, r: nat)
    requires r < |g|
    ensures Total(g) >= CountTrue(g[r])
  {
    var n := |g| - 1;
    if r < n {
      TotalAtLeastRow(g[..n], r);
    }
  }

  lemma {:induction false} SomeCell(g: Grid, sh: Shape)
    requires Fits(g, sh) && Total(g) > 0
    ensures NonEmpty(g, sh)
  {
    var r := RowWithCell(g);
    CountZero(g[r]);
    var c :| 0 <= c < |g[r]| && g[r][c];
  }

  lemma {:induction false} RowWithCell(g: Grid) returns (r: nat)
    requires Total(g) > 0
    ensures r < |g| && CountTrue(g[r]) > 0
  {
    var n := |g| - 1;
    if CountTrue(g[n]) > 0 {
      r := n;
    } else {
      r := RowWithCell(g[..n]);
    }
  }

  // Bookkeeping: the programs keep a count per line and a grand total.

  datatype Ledger = Ledger(failed: Grid, rowCnt: seq<int>, colCnt: seq<int>, num: int)

  /** The counters agree with the grid. */
  ghost predicate Counted(l: Ledger, sh: Shape) {
    && Fits(l.failed, sh) && |l.rowCnt| == sh.rows && |l.colCnt| == sh.cols && l.num == Total(l.failed)
    && (forall r :: 0 <= r < sh.rows ==> l.rowCnt[r] == CountTrue(l.failed[r]))
    && (forall c :: 0 <= c < sh.cols ==> l.colCnt[c] == CountTrue(Col(l.failed, c)))
  }

  function SetCell(g: Grid, r: nat, c: nat, x: bool): Grid
    requires r < |g| && c < |g[r]|
  {
    g[r := g[r][c := x]]
  }

  lemma {:induction false} TotalUpdate(g: Grid, r: nat, row: seq<bool>)
    requires r < |g|
    ensures Total(g[r := row]) == Total(g) - CountTrue(g[r]) + CountTrue(row)
  {
    var n := |g| - 1;
    if r < n {
      TotalUpdate(g[..n], r, row);
      assert g[r := row][..n] == g[..n][r := row];
    } else {
      assert g[r := row][..n] == g[..n];
    }
  }

  /** The ledger with cell (r, c) set and every counter it touches moved by `step`. */
  function Adjust(l: Ledger, r: nat, c: nat, x: bool, step: int): Ledger
    requires r < |l.failed| && c < |l.failed[r]| && r < |l.rowCnt| && c < |l.colCnt|
  {
    Ledger(SetCell(l.failed, r, c, x), l.rowCnt[r := l.rowCnt[r] + step], l.colCnt[c := l.colCnt[c] + step], l.num + step)
  }

  /** Clearing one failed cell lowers the count of its row, the count of its column and the total by one. */
  lemma ClearCellCounts(l: Ledger, sh: Shape, r: nat, c: nat)
    requires Counted(l, sh) && r < sh.rows && c < sh.cols && l.failed[r][c]
    ensures Counted(Adjust(l, r, c, false, -1), sh)
  {
    var g, g' := l.failed, SetCell(l.failed, r, c, false);
    CountClear(g[r], c);
    TotalUpdate(g, r, g[r][c := false]);
    forall j | 0 <= j < sh.cols
      ensures CountTrue(Col(g', j)) == if j == c then l.colCnt[c] - 1 else l.colCnt[j]
    {
      if j == c {
        assert Col(g', c) == Col(g, c)[r := false];
        CountClear(Col(g, c), r);
      } else {
        assert Col(g', j) == Col(g, j);
      }
    }
  }

  /** Marking one live cell as failed raises the same counts by one. */
  lemma MarkCellCounts(l: Ledger, sh: Shape, r: nat, c: nat)
    requires Counted(l, sh) && r < sh.rows && c < sh.cols && !l.failed[r][c]
    ensures Counted(Adjust(l, r, c, true, 1), sh)
  {
    var g, g' := l.failed, SetCell(l.failed, r, c, true);
    CountClear(g'[r], c);
    assert g'[r][c := false] == g[r];
    TotalUpdate(g, r, g'[r]);
    forall j | 0 <= j < sh.cols
      ensures CountTrue(Col(g', j)) == if j == c then l.colCnt[c] + 1 else l.colCnt[j]
    {
      if j == c {
        assert Col(g', c)[r := false] == Col(g, c);
        CountClear(Col(g', c), r);
      } else {
        assert Col(g', j) == Col(g, j);
      }
    }
  }

  /** Nothing failed, and all counters zero. */
  function Blank(sh: Shape): (l: Ledger)
    ensures Fits(l.failed, sh) && |l.rowCnt| == sh.rows && |l.colCnt| == sh.cols && l.num == 0
    ensures forall r, c :: 0 <= r < sh.rows && 0 <= c < sh.cols ==> !l.failed[r][c]
  {
    Ledger(seq(sh.rows, _ => seq(sh.cols, _ => false)), seq(sh.rows, _ => 0), seq(sh.cols, _ => 0), 0)
  }

  lemma BlankCounted(sh: Shape)
    ensures Counted(Blank(sh), sh)
  {
    var g := Blank(sh).failed;
    forall r | 0 <= r < sh.rows
      ensures CountTrue(g[r]) == 0
    {
      CountZero(g[r]);
    }
    forall c | 0 <= c < sh.cols
      ensures CountTrue(Col(g, c)) == 0
    {
      CountZero(Col(g, c));
    }
    if Total(g) > 0 {
      var r := RowWithCell(g);
    }
  }

  /** The state of a peeling program: the ledger is right, and no stopping set has been touched. */
  ghost predicate Peels(l: Ledger, g: Grid, sh: Shape) {
    && ShapeOk(sh) && Fits(g, sh) && Counted(l, sh) && Within(l.failed, g, sh) && KeepsStuck(l.failed, g, sh)
  }

  lemma PeelColStep(l: Ledger, l': Ledger, g: Grid, sh: Shape, c: nat)
    requires Peels(l, g, sh) && c < sh.peelCols && l.colCnt[c] <= sh.perCol
    requires Counted(l', sh) && l'.failed == ClearCol(l.failed, sh, c)
    ensures Peels(l', g, sh)
  {
    ClearColKeeps(l.failed, g, sh, c);
  }

  lemma PeelRowStep(l: Ledger, l': Ledger, g: Grid, sh: Shape, r: nat)
    requires Peels(l, g, sh) && r < sh.peelRows && l.rowCnt[r] <= sh.perRow
    requires Counted(l', sh) && l'.failed == ClearRow(l.failed, sh, r)
    ensures Peels(l', g, sh)
  {
    ClearRowKeeps(l.failed, g, sh, r);
  }

  /** When no repairable line is within its limit and something is left, what is left is a stopping set. */
  lemma StuckMeansStopping(l: Ledger, g: Grid, sh: Shape)
    requires Peels(l, g, sh) && l.num > 0
    requires forall r :: 0 <= r < sh.peelRows ==> l.rowCnt[r] == 0 || l.rowCnt[r] > sh.perRow
    requires forall c :: 0 <= c < sh.peelCols ==> l.colCnt[c] == 0 || l.colCnt[c] > sh.perCol
    ensures HasStoppingSet(g, sh)
  {
    SomeCell(l.failed, sh);
    assert IsStuckSet(l.failed, g, sh);
  }

  lemma ClearedMeansNone(l: Ledger, g: Grid, sh: Shape)
    requires Peels(l, g, sh) && l.num == 0
    ensures !HasStoppingSet(g, sh)
  {
    NothingLeft(l.failed, g, sh);
  }
}

/** Row-major positions: place j of row i when every row is w wide. */
module RowMajor {

  function Pos(i: nat, j: nat, w: nat): nat { i * w + j }

  function RowOf(t: nat, w: nat): nat
    requires w > 0
  {
    t / w
  }

  function ColOf(t: nat, w: nat): nat
    requires w > 0
  {
    t % w
  }

  lemma {:induction false} Monotone(a: nat, b: nat, w: nat)
    requires a <= b
    ensures a * w <= b * w
    decreases b - a
  {
    if a < b {
      Monotone(a, b - 1, w);
      assert b * w == (b - 1) * w + w;
    }
  }

  /** A later row starts at least w places further on. */
  lemma RowGap(i: nat, i': nat, w: nat)
    requires i < i'
    ensures i * w + w <= i' * w
  {
    Monotone(i + 1, i', w);
    assert (i + 1) * w == i * w + w;
  }

  lemma PosBound(i: nat, j: nat, w: nat, h: nat)
    requires i < h && j < w
    ensures Pos(i, j, w) < h * w
  {
    RowGap(i, h, w);
  }

  /** Different places have different positions. */
  lemma PosApart(i: nat, j: nat, i': nat, j': nat, w: nat)
    requires j < w && j' < w && (i != i' || j != j')
    ensures Pos(i, j, w) != Pos(i', j', w)
  {
    if i < i' {
      RowGap(i, i', w);
    } else if i' < i {
      RowGap(i', i, w);
    }
  }

  lemma PosOfRowCol(t: nat, w: nat)
    requires w > 0
    ensures ColOf(t, w) < w && Pos(RowOf(t, w), ColOf(t, w), w) == t
  {
    assert t == w * (t / w) + t % w;
  }

  /** Division and remainder lead back from a position to its place. */
  lemma RowColOfPos(i: nat, j: nat, w: nat)
    requires j < w
    ensures RowOf(Pos(i, j, w), w) == i && ColOf(Pos(i, j, w), w) == j
  {
    hide RowOf, ColOf, Pos;
    var t := Pos(i, j, w);
    PosOfRowCol(t, w);
    if RowOf(t, w) != i || ColOf(t, w) != j {
      PosApart(i, j, RowOf(t, w), ColOf(t, w), w);
    }
  }

  lemma RowInBounds(t: nat, w: nat, h: nat)
    requires t < h * w
    ensures w > 0 && RowOf(t, w) < h
  {
    assert h * 0 == 0;
    if RowOf(t, w) >= h {
      PosOfRowCol(t, w);
      Monotone(h, RowOf(t, w), w);
    }
  }
}

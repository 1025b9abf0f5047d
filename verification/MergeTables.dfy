/**
 Filling the tables of a merged stripe. Every place has an origin: a block of an old stripe, which is moved
 there, or a new parity. The old blocks come first, stripe by stripe; then the parities, row by row.
 */
module MergeTables {
  import opened Stripes

  /** What ends up in a place: block i of old stripe s, or new parity p of row r. */
  datatype Origin = Old(stripe: nat, block: nat) | New(row: nat, parity: nat)

  predicate OriginOk(o: Origin, x: nat, n: nat, rows: nat, m: nat) {
    match o
    case Old(s, i) => s < x && i < n
    case New(r, p) => r < rows && p < m
  }

  /** Place `at` is the one place of the origin. */
  ghost predicate IsPlace(origins: seq<Origin>, at: nat, o: Origin) {
    at < |origins| && origins[at] == o && forall j :: 0 <= j < |origins| && origins[j] == o ==> j == at
  }

  /** Place j holds block i of stripe s. */
  ghost predicate HoldsOld(stripes: seq<StripeInfo>, t: StripeInfo, j: nat, s: nat, i: nat) {
    && s < |stripes| && i < |stripes[s].blocks2nodes| && i < |stripes[s].blockIds| && j < |t.blocks2nodes| && j < |t.blockIds|
    && t.blocks2nodes[j] == stripes[s].blocks2nodes[i] && t.blockIds[j] == stripes[s].blockIds[i]
  }

  /** Old block (s, i) comes before block i0 of stripe s0. */
  predicate Before(o: Origin, s0: nat, i0: nat) {
    o.Old? && (o.stripe < s0 || (o.stripe == s0 && o.block < i0))
  }

  /** Place j holds the old block of its origin, and has been written once; or it has not been written yet. */
  ghost predicate PlaceFilled(origins: seq<Origin>, stripes: seq<StripeInfo>, t: StripeInfo, writes: seq<nat>, s0: nat, i0: nat,
                              j: nat)
    requires j < |writes| == |origins|
  {
    var o := origins[j];
    if Before(o, s0, i0) then writes[j] == 1 && HoldsOld(stripes, t, j, o.stripe, o.block) else writes[j] == 0
  }

  /** The blocks before block i0 of stripe s0 have been moved. */
  ghost predicate Filled(origins: seq<Origin>, stripes: seq<StripeInfo>, t: StripeInfo, writes: seq<nat>, s0: nat, i0: nat) {
    && |t.blocks2nodes| == |t.blockIds| == |writes| == |origins|
    && forall j :: 0 <= j < |writes| ==> PlaceFilled(origins, stripes, t, writes, s0, i0, j)
  }

  /** A block written to a place. */
  function Put(t: StripeInfo, at: nat, node: nat, id: nat): StripeInfo
    requires at < |t.blocks2nodes| == |t.blockIds|
  {
    StripeInfo(t.blocks2nodes[at := node], t.blockIds[at := id])
  }

  lemma FillOne(origins: seq<Origin>, stripes: seq<StripeInfo>, t: StripeInfo, writes: seq<nat>, s0: nat, i0: nat, at: nat)
    requires Filled(origins, stripes, t, writes, s0, i0) && IsPlace(origins, at, Old(s0, i0))
    requires s0 < |stripes| && i0 < |stripes[s0].blocks2nodes| == |stripes[s0].blockIds|
    ensures at < |t.blocks2nodes| == |t.blockIds| == |writes|
    ensures var next := i0 + 1;
            Filled(origins, stripes, Put(t, at, stripes[s0].blocks2nodes[i0], stripes[s0].blockIds[i0]),
                   writes[at := writes[at] + 1], s0, next)
  {
    var next := i0 + 1;
    var t', writes' := Put(t, at, stripes[s0].blocks2nodes[i0], stripes[s0].blockIds[i0]), writes[at := writes[at] + 1];
    forall j | 0 <= j < |writes|
      ensures PlaceFilled(origins, stripes, t', writes', s0, next, j)
    {
      assert PlaceFilled(origins, stripes, t, writes, s0, i0, j);
    }
  }

  /** A block that has no place is passed over. */
  lemma FillSkips(origins: seq<Origin>, stripes: seq<StripeInfo>, t: StripeInfo, writes: seq<nat>, s0: nat, i0: nat)
    requires Filled(origins, stripes, t, writes, s0, i0) && forall j :: 0 <= j < |origins| ==> origins[j] != Old(s0, i0)
    ensures var next := i0 + 1; Filled(origins, stripes, t, writes, s0, next)
  {
    var next := i0 + 1;
    forall j | 0 <= j < |writes|
      ensures PlaceFilled(origins, stripes, t, writes, s0, next, j)
    {
      assert PlaceFilled(origins, stripes, t, writes, s0, i0, j);
    }
  }

  lemma FillNextStripe(origins: seq<Origin>, stripes: seq<StripeInfo>, t: StripeInfo, writes: seq<nat>, s0: nat, n: nat, rows: nat,
                       m: nat)
    requires Filled(origins, stripes, t, writes, s0, n)
    requires forall j :: 0 <= j < |origins| ==> OriginOk(origins[j], |stripes|, n, rows, m)
    ensures var next := s0 + 1; Filled(origins, stripes, t, writes, next, 0)
  {
    var next := s0 + 1;
    forall j | 0 <= j < |writes|
      ensures PlaceFilled(origins, stripes, t, writes, next, 0, j)
    {
      assert PlaceFilled(origins, stripes, t, writes, s0, n, j);
    }
  }

  // New parities.

  /** Place j holds new parity p, on the node listed for it. */
  ghost predicate HoldsNew(t: StripeInfo, j: nat, nodes: seq<nat>, start: int, p: nat) {
    && j < |t.blocks2nodes| && j < |t.blockIds| && p < |nodes|
    && t.blocks2nodes[j] == nodes[p] && t.blockIds[j] == start + p
  }

  /**
   Place j while new parities are placed, row by row in some order: startOf[r] is the first new id of row r,
   or -1, and of row `row` only the first `cnt` parities are in place.
   */
  ghost predicate NewPlace(origins: seq<Origin>, stripes: seq<StripeInfo>, nodes: seq<seq<nat>>, t: StripeInfo, writes: seq<nat>,
                           startOf: seq<int>, row: int, cnt: nat, j: nat)
    requires j < |writes| == |origins| && |startOf| == |nodes|
  {
    match origins[j]
    case Old(s, i) => writes[j] == 1 && HoldsOld(stripes, t, j, s, i)
    case New(r, p) =>
      if r < |startOf| && startOf[r] >= 0 && (r != row || p < cnt) then writes[j] == 1 && HoldsNew(t, j, nodes[r], startOf[r], p)
      else writes[j] == 0
  }

  ghost predicate NewPlaces(origins: seq<Origin>, stripes: seq<StripeInfo>, nodes: seq<seq<nat>>, t: StripeInfo, writes: seq<nat>,
                            startOf: seq<int>, row: int, cnt: nat) {
    && |t.blocks2nodes| == |t.blockIds| == |writes| == |origins| && |startOf| == |nodes|
    && forall j :: 0 <= j < |writes| ==> NewPlace(origins, stripes, nodes, t, writes, startOf, row, cnt, j)
  }

  lemma NewStarts(origins: seq<Origin>, stripes: seq<StripeInfo>, nodes: seq<seq<nat>>, t: StripeInfo, writes: seq<nat>,
                  startOf: seq<int>, n: nat, m: nat)
    requires Filled(origins, stripes, t, writes, |stripes|, 0) && |startOf| == |nodes|
    requires forall j :: 0 <= j < |origins| ==> OriginOk(origins[j], |stripes|, n, |nodes|, m)
    requires forall r :: 0 <= r < |startOf| ==> startOf[r] == -1
    ensures NewPlaces(origins, stripes, nodes, t, writes, startOf, -1, 0)
  {
    forall j | 0 <= j < |writes|
      ensures NewPlace(origins, stripes, nodes, t, writes, startOf, -1, 0, j)
    {
      assert PlaceFilled(origins, stripes, t, writes, |stripes|, 0, j);
    }
  }

  lemma RowStarts(origins: seq<Origin>, stripes: seq<StripeInfo>, nodes: seq<seq<nat>>, t: StripeInfo, writes: seq<nat>,
                  startOf: seq<int>, row: nat, cur: nat)
    requires NewPlaces(origins, stripes, nodes, t, writes, startOf, -1, 0) && row < |startOf| && startOf[row] == -1
    ensures NewPlaces(origins, stripes, nodes, t, writes, startOf[row := cur], row, 0)
  {
    var startOf' := startOf[row := cur];
    forall j | 0 <= j < |writes|
      ensures NewPlace(origins, stripes, nodes, t, writes, startOf', row, 0, j)
    {
      assert NewPlace(origins, stripes, nodes, t, writes, startOf, -1, 0, j);
    }
  }

  lemma RowEnds(origins: seq<Origin>, stripes: seq<StripeInfo>, nodes: seq<seq<nat>>, t: StripeInfo, writes: seq<nat>,
                startOf: seq<int>, row: nat, x: nat, n: nat, m: nat)
    requires NewPlaces(origins, stripes, nodes, t, writes, startOf, row, m)
    requires forall j :: 0 <= j < |origins| ==> OriginOk(origins[j], x, n, |nodes|, m)
    ensures NewPlaces(origins, stripes, nodes, t, writes, startOf, -1, 0)
  {
    forall j | 0 <= j < |writes|
      ensures NewPlace(origins, stripes, nodes, t, writes, startOf, -1, 0, j)
    {
      assert NewPlace(origins, stripes, nodes, t, writes, startOf, row, m, j);
    }
  }

  lemma PlaceParity(origins: seq<Origin>, stripes: seq<StripeInfo>, nodes: seq<seq<nat>>, t: StripeInfo, writes: seq<nat>,
                    startOf: seq<int>, row: nat, p: nat, at: nat)
    requires NewPlaces(origins, stripes, nodes, t, writes, startOf, row, p) && IsPlace(origins, at, New(row, p))
    requires row < |nodes| && p < |nodes[row]| && startOf[row] >= 0
    ensures at < |t.blocks2nodes| == |t.blockIds| == |writes|
    ensures var next := p + 1;
            NewPlaces(origins, stripes, nodes, Put(t, at, nodes[row][p], startOf[row] + p), writes[at := writes[at] + 1], startOf,
                      row, next)
  {
    var next := p + 1;
    var t', writes' := Put(t, at, nodes[row][p], startOf[row] + p), writes[at := writes[at] + 1];
    forall j | 0 <= j < |writes|
      ensures NewPlace(origins, stripes, nodes, t', writes', startOf, row, next, j)
    {
      assert NewPlace(origins, stripes, nodes, t, writes, startOf, row, p, j);
    }
  }

  /** With every row started, every place has been written once. */
  lemma AllWritten(origins: seq<Origin>, stripes: seq<StripeInfo>, nodes: seq<seq<nat>>, t: StripeInfo, writes: seq<nat>,
                   startOf: seq<int>, x: nat, n: nat, m: nat)
    requires NewPlaces(origins, stripes, nodes, t, writes, startOf, -1, 0)
    requires forall j :: 0 <= j < |origins| ==> OriginOk(origins[j], x, n, |nodes|, m)
    requires forall r :: 0 <= r < |startOf| ==> startOf[r] >= 0
    ensures forall j :: 0 <= j < |writes| ==> writes[j] == 1
  {
    forall j | 0 <= j < |writes|
      ensures writes[j] == 1
    {
      assert NewPlace(origins, stripes, nodes, t, writes, startOf, -1, 0, j);
    }
  }
}

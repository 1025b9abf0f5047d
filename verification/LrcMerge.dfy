/**
 Merging x Azure stripes into one. The data and the local parities keep their blocks and move to new
 places in the larger stripe; only the global parities are calculated anew.
 */
module LrcMerge {
  import opened RowMajor
  import opened LrcShape
  import opened Stripes
  import opened MergeTables

  /** The code of the merged stripe. */
  function Merged(c: Lrc, x: nat): Lrc { Lrc(c.kind, x * c.k, x * c.l, c.g) }

  /** Where block i of the stripe with serial number s goes; global parities stay behind. */
  function NewIdx(c: Lrc, x: nat, s: nat, i: nat): nat
    requires i < BlockNum(c) && !(c.k <= i < c.k + c.g)
  {
    if i < c.k then s * c.k + i else x * c.k + c.g + s * c.l + (i - c.k - c.g)
  }

  /** The block that ends up at place j of the merged stripe: an old block, or a new global parity. */
  function OriginOf(c: Lrc, x: nat, j: nat): Origin
    requires c.k >= 1 && c.l >= 1
  {
    if j < x * c.k then Old(j / c.k, j % c.k)
    else if j < x * c.k + c.g then New(0, j - x * c.k)
    else
      var t := j - x * c.k - c.g;
      Old(t / c.l, c.k + c.g + t % c.l)
  }

  /** The place of an origin. */
  function PlaceOf(c: Lrc, x: nat, o: Origin): nat
    requires o.Old? ==> o.block < BlockNum(c) && !(c.k <= o.block < c.k + c.g)
  {
    match o
    case Old(s, i) => NewIdx(c, x, s, i)
    case New(_, p) => x * c.k + p
  }

  /** The origins there are: the data blocks and local parities of x stripes, and g new parities. */
  ghost predicate IsOrigin(c: Lrc, x: nat, o: Origin) {
    match o
    case Old(s, i) => s < x && i < BlockNum(c) && !(c.k <= i < c.k + c.g)
    case New(r, p) => r == 0 && p < c.g
  }

  /** Every place of the merged stripe has exactly one origin. */
  lemma PlacesAreOrigins(c: Lrc, x: nat, j: nat)
    requires c.k >= 1 && c.l >= 1 && j < BlockNum(Merged(c, x))
    ensures IsOrigin(c, x, OriginOf(c, x, j)) && PlaceOf(c, x, OriginOf(c, x, j)) == j
  {
    if j < x * c.k {
      RowInBounds(j, c.k, x);
      PosOfRowCol(j, c.k);
    } else if j >= x * c.k + c.g {
      var t := j - x * c.k - c.g;
      RowInBounds(t, c.l, x);
      PosOfRowCol(t, c.l);
    }
  }

  /** Every origin has a place, and that place has no other origin. */
  lemma OriginsArePlaces(c: Lrc, x: nat, o: Origin)
    requires c.k >= 1 && c.l >= 1 && IsOrigin(c, x, o)
    ensures PlaceOf(c, x, o) < BlockNum(Merged(c, x)) && OriginOf(c, x, PlaceOf(c, x, o)) == o
  {
    match o
    case Old(s, i) =>
      if i < c.k {
        PosBound(s, i, c.k, x);
        RowColOfPos(s, i, c.k);
      } else {
        var t := i - c.k - c.g;
        PosBound(s, t, c.l, x);
        RowColOfPos(s, t, c.l);
      }
    case New(_, p) =>
  }

  // Filling the places.

  ghost predicate StripesOk(c: Lrc, x: nat, stripes: seq<StripeInfo>) {
    && c.k >= 1 && c.l >= 1 && x >= 1 && |stripes| == x
    && forall s :: 0 <= s < x ==> |stripes[s].blocks2nodes| == |stripes[s].blockIds| == BlockNum(c)
  }

  /** The origins of all places. */
  ghost function Origins(c: Lrc, x: nat): (r: seq<Origin>)
    requires c.k >= 1 && c.l >= 1
    ensures |r| == BlockNum(Merged(c, x)) && forall j :: 0 <= j < |r| ==> r[j] == OriginOf(c, x, j)
  {
    seq(BlockNum(Merged(c, x)), j requires 0 <= j => OriginOf(c, x, j))
  }

  lemma OriginsOk(c: Lrc, x: nat)
    requires c.k >= 1 && c.l >= 1
    ensures forall j :: 0 <= j < |Origins(c, x)| ==> OriginOk(Origins(c, x)[j], x, BlockNum(c), 1, c.g)
  {
    hide OriginOf, BlockNum, Merged;
    forall j | 0 <= j < |Origins(c, x)|
      ensures OriginOk(Origins(c, x)[j], x, BlockNum(c), 1, c.g)
    {
      PlacesAreOrigins(c, x, j);
    }
  }

  lemma PlaceIs(c: Lrc, x: nat, o: Origin)
    requires c.k >= 1 && c.l >= 1 && IsOrigin(c, x, o)
    ensures IsPlace(Origins(c, x), PlaceOf(c, x, o), o)
  {
    hide OriginOf, BlockNum, Merged, PlaceOf;
    OriginsArePlaces(c, x, o);
    forall j: nat | j < |Origins(c, x)| && Origins(c, x)[j] == o
      ensures j == PlaceOf(c, x, o)
    {
      PlacesAreOrigins(c, x, j);
    }
  }

  lemma NoPlace(c: Lrc, x: nat, s: nat, i: nat)
    requires c.k >= 1 && c.l >= 1 && c.k <= i < c.k + c.g
    ensures forall j :: 0 <= j < |Origins(c, x)| ==> Origins(c, x)[j] != Old(s, i)
  {
    hide OriginOf, BlockNum, Merged;
    forall j: nat | j < |Origins(c, x)|
      ensures Origins(c, x)[j] != Old(s, i)
    {
      PlacesAreOrigins(c, x, j);
    }
  }

  /** Moves the data blocks and local parities of one stripe, and lists the nodes of its global parities. */
  method MoveBlocks(c: Lrc, x: nat, stripes: seq<StripeInfo>, s: nat, larger0: StripeInfo, parityNodes0: seq<nat>,
                    ghost writes0: seq<nat>) returns (larger: StripeInfo, parityNodes: seq<nat>, ghost writes: seq<nat>)
    requires StripesOk(c, x, stripes) && s < x && Filled(Origins(c, x), stripes, larger0, writes0, s, 0)
    ensures var next := s + 1; Filled(Origins(c, x), stripes, larger, writes, next, 0)
    ensures parityNodes == parityNodes0 + stripes[s].blocks2nodes[c.k..c.k + c.g]
  {
    hide Filled, NewIdx, Merged, OriginOf;
    larger, parityNodes, writes := larger0, parityNodes0, writes0;
    ghost var nodes := stripes[s].blocks2nodes;
    for i := 0 to BlockNum(c)
      invariant Filled(Origins(c, x), stripes, larger, writes, s, i)
      invariant parityNodes == parityNodes0 + nodes[c.k..if i <= c.k then c.k else if i <= c.k + c.g then i else c.k + c.g]
    {
      if i < c.k || i >= c.k + c.g {
        var at := NewIdx(c, x, s, i);
        PlaceIs(c, x, Old(s, i));
        FillOne(Origins(c, x), stripes, larger, writes, s, i, at);
        larger := Put(larger, at, stripes[s].blocks2nodes[i], stripes[s].blockIds[i]);
        writes := writes[at := writes[at] + 1];
      } else {
        NoPlace(c, x, s, i);
        FillSkips(Origins(c, x), stripes, larger, writes, s, i);
        assert nodes[c.k..i + 1] == nodes[c.k..i] + [nodes[i]];
        parityNodes := parityNodes + [stripes[s].blocks2nodes[i]];
      }
    }
    OriginsOk(c, x);
    FillNextStripe(Origins(c, x), stripes, larger, writes, s, BlockNum(c), 1, c.g);
  }

  /** Places the new global parities on the nodes of old ones. */
  method PlaceNew(c: Lrc, x: nat, ghost stripes: seq<StripeInfo>, larger0: StripeInfo, parityNodes: seq<nat>, curBlockId: nat,
                  ghost writes0: seq<nat>) returns (larger: StripeInfo, cur: nat, ghost writes: seq<nat>)
    requires c.k >= 1 && c.l >= 1 && |parityNodes| >= c.g
    requires NewPlaces(Origins(c, x), stripes, [parityNodes], larger0, writes0, [curBlockId], 0, 0)
    ensures NewPlaces(Origins(c, x), stripes, [parityNodes], larger, writes, [curBlockId], 0, c.g) && cur == curBlockId + c.g
  {
    hide NewPlaces, OriginOf, Merged;
    larger, writes, cur := larger0, writes0, curBlockId;
    for p := 0 to c.g
      invariant NewPlaces(Origins(c, x), stripes, [parityNodes], larger, writes, [curBlockId], 0, p) && cur == curBlockId + p
    {
      var at := x * c.k + p;
      PlaceIs(c, x, New(0, p));
      PlaceParity(Origins(c, x), stripes, [parityNodes], larger, writes, [curBlockId], 0, p, at);
      larger := Put(larger, at, parityNodes[p], cur);
      writes := writes[at := writes[at] + 1];
      cur := cur + 1;
    }
  }

  /** The nodes of old global parities, listed for the new ones: the first stripe's come first. */
  ghost predicate NodesListed(c: Lrc, stripes: seq<StripeInfo>, parityNodes: seq<nat>) {
    && |parityNodes| >= c.g && |stripes| >= 1 && |stripes[0].blocks2nodes| == BlockNum(c)
    && forall p :: 0 <= p < c.g ==> parityNodes[p] == stripes[0].blocks2nodes[c.k + p]
  }

  /**
   Builds the merged stripe's tables. Every place is written exactly once: with an old data block or local
   parity where it was stored, or with a new global parity, under a new id, on the node of an old one.
   */
  method AzureMerge(c: Lrc, x: nat, stripes: seq<StripeInfo>, curBlockId: nat)
      returns (larger: StripeInfo, cur: nat, parityNodes: seq<nat>, ghost writes: seq<nat>)
    requires StripesOk(c, x, stripes)
    ensures NewPlaces(Origins(c, x), stripes, [parityNodes], larger, writes, [curBlockId], -1, 0)
    ensures forall j :: 0 <= j < |writes| ==> writes[j] == 1
    ensures NodesListed(c, stripes, parityNodes) && cur == curBlockId + c.g
  {
    hide NewPlaces, OriginOf, NewIdx, Merged;
    var n := BlockNum(Merged(c, x));
    larger, writes := StripeInfo(seq(n, _ => 0), seq(n, _ => 0)), seq(n, _ => 0);
    parityNodes := [];
    ghost var first := stripes[0].blocks2nodes[c.k..c.k + c.g];
    for s := 0 to x
      invariant Filled(Origins(c, x), stripes, larger, writes, s, 0)
      invariant if s == 0 then parityNodes == [] else first <= parityNodes
    {
      assert [] + first == first;
      larger, parityNodes, writes := MoveBlocks(c, x, stripes, s, larger, parityNodes, writes);
    }
    FirstNodes(parityNodes, first, stripes[0].blocks2nodes, c.k, c.g);
    OriginsOk(c, x);
    ghost var none: seq<int> := [-1];
    NewStarts(Origins(c, x), stripes, [parityNodes], larger, writes, none, BlockNum(c), c.g);
    RowStarts(Origins(c, x), stripes, [parityNodes], larger, writes, none, 0, curBlockId);
    assert none[0 := curBlockId] == [curBlockId];
    larger, cur, writes := PlaceNew(c, x, stripes, larger, parityNodes, curBlockId, writes);
    RowEnds(Origins(c, x), stripes, [parityNodes], larger, writes, [curBlockId], 0, x, BlockNum(c), c.g);
    AllWritten(Origins(c, x), stripes, [parityNodes], larger, writes, [curBlockId], x, BlockNum(c), c.g);
  }

  lemma FirstNodes(all: seq<nat>, first: seq<nat>, nodes: seq<nat>, k: nat, g: nat)
    requires first <= all && k + g <= |nodes| && first == nodes[k..k + g]
    ensures |all| >= g && forall p :: 0 <= p < g ==> all[p] == nodes[k + p]
  {
    assert forall p :: 0 <= p < g ==> all[p] == first[p];
  }
}

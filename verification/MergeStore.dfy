/**
 The blocks behind the tables of a merged stripe: what the store holds under the ids of the moved blocks, and
 of the new parities as they are stored row by row.
 */
module MergeStore {
  import opened Stripes
  import opened MergeTables

  /** The new parities' ids: later than `cur0`, with room for each row's m parities. */
  ghost predicate IdsApart(m: nat, startOf: seq<int>, cur0: nat, cur: nat) {
    && (forall r :: 0 <= r < |startOf| && startOf[r] != -1 ==> cur0 <= startOf[r] && startOf[r] + m <= cur)
    && forall r, q :: 0 <= r < |startOf| && 0 <= q < |startOf| && r != q && startOf[r] != -1 && startOf[q] != -1 ==>
         startOf[r] + m <= startOf[q] || startOf[q] + m <= startOf[r]
  }

  /** The store holds the blocks of the old stripes under their ids, which are older than the next id to give out. */
  ghost predicate OldStored<B>(stripes: seq<StripeInfo>, olds: seq<seq<B>>, store: map<nat, B>, curBlockId: nat) {
    |olds| == |stripes| && forall s, i :: 0 <= s < |stripes| && 0 <= i < |stripes[s].blockIds| ==>
      && stripes[s].blockIds[i] < curBlockId && stripes[s].blockIds[i] in store
      && i < |olds[s]| && store[stripes[s].blockIds[i]] == olds[s][i]
  }

  /** Every kept block is the block the merged stripe has at its new place. */
  ghost predicate KeepsBlocks<B>(origins: seq<Origin>, olds: seq<seq<B>>, blocks: seq<B>) {
    |blocks| == |origins| && forall j :: 0 <= j < |origins| && origins[j].Old? ==>
      && origins[j].stripe < |olds| && origins[j].block < |olds[origins[j].stripe]|
      && blocks[j] == olds[origins[j].stripe][origins[j].block]
  }

  /** The block of place j is in the store under the place's id. */
  ghost predicate Held<B>(t: StripeInfo, store: map<nat, B>, blocks: seq<B>, j: nat)
    requires j < |t.blockIds| == |blocks|
  {
    t.blockIds[j] in store && store[t.blockIds[j]] == blocks[j]
  }

  /** It is a kept block, or among the parities of the first rows, or among the first p parities of row r. */
  predicate Stored(o: Origin, r: nat, p: nat) { o.Old? || o.row < r || (o.row == r && o.parity < p) }

  ghost predicate HeldTo<B>(origins: seq<Origin>, t: StripeInfo, store: map<nat, B>, blocks: seq<B>, r: nat, p: nat) {
    && |t.blockIds| == |blocks| == |origins|
    && forall j :: 0 <= j < |origins| && Stored(origins[j], r, p) ==> Held(t, store, blocks, j)
  }

  /** What is known of the finished tables. */
  ghost predicate TablesOk(origins: seq<Origin>, stripes: seq<StripeInfo>, nodes: seq<seq<nat>>, t: StripeInfo, writes: seq<nat>,
                           startOf: seq<int>, m: nat, cur0: nat, cur: nat) {
    && NewPlaces(origins, stripes, nodes, t, writes, startOf, -1, 0) && IdsApart(m, startOf, cur0, cur)
    && (forall r :: 0 <= r < |startOf| ==> startOf[r] >= cur0)
    && forall j :: 0 <= j < |origins| ==> origins[j].New? ==> origins[j].row < |startOf| && origins[j].parity < m
  }

  /** After the tables are filled every kept block is found at its new place. */
  lemma KeptHeld<B>(origins: seq<Origin>, stripes: seq<StripeInfo>, nodes: seq<seq<nat>>, t: StripeInfo, writes: seq<nat>,
                    startOf: seq<int>, m: nat, cur0: nat, cur: nat, olds: seq<seq<B>>, store: map<nat, B>, blocks: seq<B>)
    requires TablesOk(origins, stripes, nodes, t, writes, startOf, m, cur0, cur)
    requires OldStored(stripes, olds, store, cur0) && KeepsBlocks(origins, olds, blocks)
    ensures HeldTo(origins, t, store, blocks, 0, 0)
  {
    forall j | 0 <= j < |origins| && Stored(origins[j], 0, 0)
      ensures Held(t, store, blocks, j)
    {
      assert NewPlace(origins, stripes, nodes, t, writes, startOf, -1, 0, j);
    }
  }

  /** The id of a new parity is nowhere else in the merged stripe. */
  lemma NewIdsApart<B>(origins: seq<Origin>, stripes: seq<StripeInfo>, nodes: seq<seq<nat>>, t: StripeInfo, writes: seq<nat>,
                       startOf: seq<int>, m: nat, cur0: nat, cur: nat, olds: seq<seq<B>>, store: map<nat, B>, at: nat, j: nat)
    requires TablesOk(origins, stripes, nodes, t, writes, startOf, m, cur0, cur) && OldStored(stripes, olds, store, cur0)
    requires at < |origins| && origins[at].New? && IsPlace(origins, at, origins[at]) && j < |origins| && j != at
    ensures |t.blockIds| == |origins| && t.blockIds[j] != t.blockIds[at]
  {
    assert NewPlace(origins, stripes, nodes, t, writes, startOf, -1, 0, at);
    assert NewPlace(origins, stripes, nodes, t, writes, startOf, -1, 0, j);
    assert startOf[origins[at].row] >= cur0;
    match origins[j]
    case Old(s, i) => assert stripes[s].blockIds[i] < cur0;
    case New(r, p) => assert origins[j] != origins[at] && startOf[r] >= cur0;
  }

  /** One more parity is stored; the old blocks are still there. */
  lemma HeldMore<B>(origins: seq<Origin>, stripes: seq<StripeInfo>, nodes: seq<seq<nat>>, t: StripeInfo, writes: seq<nat>,
                    startOf: seq<int>, m: nat, cur0: nat, cur: nat, olds: seq<seq<B>>, store0: map<nat, B>, store: map<nat, B>,
                    blocks: seq<B>, r: nat, p: nat, at: nat)
    requires TablesOk(origins, stripes, nodes, t, writes, startOf, m, cur0, cur) && OldStored(stripes, olds, store0, cur0)
    requires HeldTo(origins, t, store, blocks, r, p) && IsPlace(origins, at, New(r, p))
    ensures at < |t.blockIds| == |blocks|
    ensures var next := p + 1; HeldTo(origins, t, store[t.blockIds[at] := blocks[at]], blocks, r, next)
  {
    hide TablesOk, OldStored;
    var next := p + 1;
    var store' := store[t.blockIds[at] := blocks[at]];
    forall j | 0 <= j < |origins| && Stored(origins[j], r, next)
      ensures Held(t, store', blocks, j)
    {
      if j != at {
        NewIdsApart(origins, stripes, nodes, t, writes, startOf, m, cur0, cur, olds, store0, at, j);
      }
    }
  }

  lemma HeldNextRow<B>(origins: seq<Origin>, t: StripeInfo, store: map<nat, B>, blocks: seq<B>, r: nat, m: nat)
    requires HeldTo(origins, t, store, blocks, r, m)
    requires forall j :: 0 <= j < |origins| ==> origins[j].New? ==> origins[j].parity < m
    ensures var next := r + 1; HeldTo(origins, t, store, blocks, next, 0)
  {
  }

  /** With all rows stored, every place holds its block. */
  lemma AllHeld<B>(origins: seq<Origin>, t: StripeInfo, store: map<nat, B>, blocks: seq<B>, rows: nat)
    requires HeldTo(origins, t, store, blocks, rows, 0)
    requires forall j :: 0 <= j < |origins| ==> origins[j].New? ==> origins[j].row < rows
    ensures |t.blockIds| == |blocks| && forall j :: 0 <= j < |blocks| ==> Held(t, store, blocks, j)
  {
    forall j | 0 <= j < |blocks|
      ensures Stored(origins[j], rows, 0)
    {
    }
  }
}

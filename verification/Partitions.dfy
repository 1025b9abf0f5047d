/** Splitting the blocks of a stripe over partitions, each of which later goes to a cluster of its own. */
module Partitions {
  import opened Listing

  type Partition = seq<seq<nat>>

  /** Every block 0..n-1 is in exactly one part, and no part is empty. */
  ghost predicate IsPartition(p: Partition, n: nat) {
    && NoRepeats(Concat(p))
    && (forall a :: 0 <= a < |Concat(p)| ==> Concat(p)[a] < n)
    && (forall x :: 0 <= x < n ==> x in Concat(p))
    && forall i :: 0 <= i < |p| ==> p[i] != []
  }

  lemma AllInOrder(plan: Partition, n: nat)
    requires Concat(plan) == UpTo(n) && forall i :: 0 <= i < |plan| ==> plan[i] != []
    ensures IsPartition(plan, n)
  {
    forall x: nat | x < n
      ensures x in Concat(plan)
    {
      InUpTo(n, x);
    }
  }

  lemma {:induction false} InConcat(p: Partition, i: nat, j: nat) returns (at: nat)
    requires i < |p| && j < |p[i]|
    ensures at < |Concat(p)| && Concat(p)[at] == p[i][j] && at == |Concat(p[..i])| + j
  {
    var n := |p| - 1;
    if i == n {
      at := |Concat(p[..n])| + j;
    } else {
      at := InConcat(p[..n], i, j);
      assert p[..n][..i] == p[..i];
    }
  }

  lemma {:induction false} FromConcat(p: Partition, at: nat) returns (i: nat, j: nat)
    requires at < |Concat(p)|
    ensures i < |p| && j < |p[i]| && Concat(p)[at] == p[i][j] && at == |Concat(p[..i])| + j
  {
    var n := |p| - 1;
    var before := |Concat(p[..n])|;
    if at < before {
      i, j := FromConcat(p[..n], at);
      assert p[..n][..i] == p[..i];
    } else {
      i, j := n, at - before;
    }
  }

  /** No block is in two places of the partition. */
  ghost predicate Apart(p: Partition) {
    forall i, a, i', a' | 0 <= i < |p| && 0 <= i' < |p| && 0 <= a < |p[i]| && 0 <= a' < |p[i']| ::
      p[i][a] == p[i'][a'] ==> i == i' && a == a'
  }

  lemma {:induction false} ConcatGrows(p: Partition, i: nat, i': nat)
    requires i < i' <= |p|
    ensures |Concat(p[..i])| + |p[i]| <= |Concat(p[..i'])|
  {
    assert p[..i'][..i' - 1] == p[..i' - 1];
    if i < i' - 1 {
      ConcatGrows(p, i, i' - 1);
    }
  }

  lemma NoRepeatsMeansApart(p: Partition)
    requires NoRepeats(Concat(p))
    ensures Apart(p)
  {
    forall i, a, i', a' | 0 <= i < |p| && 0 <= i' < |p| && 0 <= a < |p[i]| && 0 <= a' < |p[i']| && p[i][a] == p[i'][a']
      ensures i == i' && a == a'
    {
      var x := InConcat(p, i, a);
      var y := InConcat(p, i', a');
      if i < i' {
        ConcatGrows(p, i, i');
      } else if i' < i {
        ConcatGrows(p, i', i);
      }
    }
  }

  lemma {:induction false} ApartMeansNoRepeats(p: Partition)
    requires Apart(p)
    ensures NoRepeats(Concat(p))
  {
    forall x, y | 0 <= x < y < |Concat(p)|
      ensures Concat(p)[x] != Concat(p)[y]
    {
      var i, a := FromConcat(p, x);
      var i', a' := FromConcat(p, y);
    }
  }

  // Groups of blocks, each taken out of one part.

  /** Group i comes out of part from[i]; all parts are different. */
  ghost predicate GroupsFrom(plan: Partition, groups: Partition, from: seq<nat>) {
    && |groups| == |from| && NoRepeats(from)
    && forall i :: 0 <= i < |groups| ==> from[i] < |plan| && groups[i] != [] && forall x :: x in groups[i] ==> x in plan[from[i]]
  }

  ghost predicate SamePart(plan: Partition, x: nat, y: nat) {
    exists q :: 0 <= q < |plan| && x in plan[q] && y in plan[q]
  }

  /** No group is empty, and two blocks are in one group exactly when they are in one part. */
  ghost predicate GroupedByPart(plan: Partition, groups: Partition) {
    && (forall i :: 0 <= i < |groups| ==> groups[i] != [])
    && forall i, a, j, b :: 0 <= i < |groups| && 0 <= a < |groups[i]| && 0 <= j < |groups| && 0 <= b < |groups[j]| ==>
         (SamePart(plan, groups[i][a], groups[j][b]) <==> i == j)
  }

  lemma OneMoreGroup(plan: Partition, groups: Partition, from: seq<nat>, group: seq<nat>, p: nat)
    requires GroupsFrom(plan, groups, from) && p < |plan| && p !in from && group != [] && forall x :: x in group ==> x in plan[p]
    ensures GroupsFrom(plan, groups + [group], from + [p])
  {
    NoRepeatsConcat(from, [p]);
  }

  lemma OnlyInPart(plan: Partition, i: nat, j: nat, x: nat)
    requires Apart(plan) && i < |plan| && j < |plan| && x in plan[i] && x in plan[j]
    ensures i == j
  {
    var a :| 0 <= a < |plan[i]| && plan[i][a] == x;
    var b :| 0 <= b < |plan[j]| && plan[j][b] == x;
  }

  lemma GroupsByPart(plan: Partition, groups: Partition, from: seq<nat>)
    requires NoRepeats(Concat(plan)) && GroupsFrom(plan, groups, from)
    ensures GroupedByPart(plan, groups)
  {
    hide Concat;
    NoRepeatsMeansApart(plan);
    forall i, a, j, b | 0 <= i < |groups| && 0 <= a < |groups[i]| && 0 <= j < |groups| && 0 <= b < |groups[j]|
      ensures SamePart(plan, groups[i][a], groups[j][b]) <==> i == j
    {
      GroupOfPart(plan, groups, from, i, a, j, b);
    }
  }

  lemma GroupOfPart(plan: Partition, groups: Partition, from: seq<nat>, i: nat, a: nat, j: nat, b: nat)
    requires Apart(plan) && GroupsFrom(plan, groups, from)
    requires i < |groups| && a < |groups[i]| && j < |groups| && b < |groups[j]|
    ensures SamePart(plan, groups[i][a], groups[j][b]) <==> i == j
  {
    hide Apart;
    var x, y := groups[i][a], groups[j][b];
    assert x in groups[i] && y in groups[j];
    if SamePart(plan, x, y) {
      var q :| 0 <= q < |plan| && x in plan[q] && y in plan[q];
      OnlyInPart(plan, q, from[i], x);
      OnlyInPart(plan, q, from[j], y);
    }
  }

  /** Two lists of the same blocks, perhaps in another order. */
  ghost predicate SameBlocks(a: seq<nat>, b: seq<nat>) { multiset(a) == multiset(b) }

  lemma SameAppend(a: seq<nat>, b: seq<nat>, m: seq<nat>)
    requires SameBlocks(a, b)
    ensures SameBlocks(a + m, b + m)
  {
  }

  lemma SameThrough(a: seq<nat>, b: seq<nat>, d: seq<nat>)
    requires SameBlocks(a, b) && SameBlocks(b, d)
    ensures SameBlocks(a, d)
  {
  }

  lemma ConcatSnoc(p: Partition, part: seq<nat>)
    ensures Concat(p + [part]) == Concat(p) + part
  {
    assert (p + [part])[..|p|] == p;
  }

  lemma ConcatLast(p: Partition)
    requires p != []
    ensures Concat(p) == Concat(p[..|p| - 1]) + p[|p| - 1]
  {
  }

  lemma {:induction false} ConcatTwo(p: Partition, p': Partition)
    ensures Concat(p + p') == Concat(p) + Concat(p')
  {
    if p' == [] {
      assert p + p' == p;
    } else {
      var n := |p'| - 1;
      ConcatTwo(p, p'[..n]);
      assert (p + p')[..|p + p'| - 1] == p + p'[..n];
    }
  }

  lemma RearrangedList(all: seq<nat>, n: nat)
    requires SameBlocks(all, UpTo(n))
    ensures NoRepeats(all) && (forall a :: 0 <= a < |all| ==> all[a] < n) && forall x :: 0 <= x < n ==> x in all
  {
    SameMembers(all, UpTo(n));
    hide SameBlocks, NoRepeats;
    forall x: nat | x < n
      ensures x in all
    {
      InUpTo(n, x);
    }
    forall a | 0 <= a < |all|
      ensures all[a] < n
    {
      assert all[a] in all;
    }
  }

  /** Parts that together are a rearrangement of all the blocks form a partition. */
  lemma Rearranged(plan: Partition, n: nat)
    requires SameBlocks(Concat(plan), UpTo(n)) && forall i :: 0 <= i < |plan| ==> plan[i] != []
    ensures IsPartition(plan, n)
  {
    hide SameBlocks, NoRepeats, Concat;
    RearrangedList(Concat(plan), n);
  }

  /** A part of a partition has no repeats and stays in range. */
  lemma PartOf(plan: Partition, n: nat, i: nat)
    requires IsPartition(plan, n) && i < |plan|
    ensures NoRepeats(plan[i]) && forall j :: 0 <= j < |plan[i]| ==> plan[i][j] < n
  {
    NoRepeatsMeansApart(plan);
    forall j | 0 <= j < |plan[i]|
      ensures plan[i][j] < n
    {
      var at := InConcat(plan, i, j);
    }
  }

  /** Takes one block out of the list of those left. */
  lemma TakenOut(blocks: seq<nat>, at: nat)
    requires at < |blocks|
    ensures multiset(blocks) == multiset(blocks[..at] + blocks[at + 1..]) + multiset{blocks[at]}
  {
    var rest := blocks[..at] + blocks[at + 1..];
    assert rest[..at] == blocks[..at] && rest[at..] == blocks[at + 1..];
    assert blocks == rest[..at] + [blocks[at]] + rest[at..];
    MultisetInsert(rest, blocks[at], at);
  }

  /** One part of `size` blocks, drawn at random from those left. */
  method DrawPart(blocks0: seq<nat>, size: nat) returns (part: seq<nat>, blocks: seq<nat>)
    requires size <= |blocks0|
    ensures |part| == size && |blocks| == |blocks0| - size
    ensures multiset(part) + multiset(blocks) == multiset(blocks0)
  {
    part, blocks := [], blocks0;
    for i := 0 to size
      invariant |part| == i && |blocks| == |blocks0| - i
      invariant multiset(part) + multiset(blocks) == multiset(blocks0)
    {
      var ranIdx :| 0 <= ranIdx < |blocks|;
      TakenOut(blocks, ranIdx);
      part := part + [blocks[ranIdx]];
      blocks := blocks[..ranIdx] + blocks[ranIdx + 1..];
    }
  }

  /** Random parts of at most `most` blocks each. */
  method PartitionRandom(n: nat, most: nat) returns (plan: Partition)
    requires most >= 1
    ensures IsPartition(plan, n)
    ensures forall i :: 0 <= i < |plan| ==> |plan[i]| <= most
  {
    plan := [];
    var blocks := UpTo(n);
    var cnt := 0;
    while cnt < n
      invariant 0 <= cnt <= n && |blocks| == n - cnt
      invariant multiset(Concat(plan)) + multiset(blocks) == multiset(UpTo(n))
      invariant forall i :: 0 <= i < |plan| ==> plan[i] != [] && |plan[i]| <= most
    {
      var randomPartitionSize :| 1 <= randomPartitionSize <= most;
      var partitionSize := if randomPartitionSize < n - cnt then randomPartitionSize else n - cnt;
      var part, left := DrawPart(blocks, partitionSize);
      ConcatSnoc(plan, part);
      plan := plan + [part];
      blocks := left;
      cnt := cnt + partitionSize;
    }
    assert blocks == [];
    Rearranged(plan, n);
  }
}

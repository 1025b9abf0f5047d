/**
 Whole-block repair: whatever way the surviving blocks are spread over clusters, and in whatever order
 the clusters' partial blocks arrive, the additions and the decoding give back the lost blocks.
 */
module BlockRepair {
  import opened Listing
  import opened Fields
  import opened Sums
  import opened Matrices
  import opened RepairAlgebra
  import opened ErasureCode

  /** A partial block on its way, tagged with the parity it belongs to. */
  datatype Message<E> = Message(parity: nat, block: Block<E>)

  function Parities<E>(arrived: seq<Message<E>>): (r: seq<nat>)
    ensures |r| == |arrived| && forall i :: 0 <= i < |r| ==> r[i] == arrived[i].parity
  {
    seq(|arrived|, i requires 0 <= i < |arrived| => arrived[i].parity)
  }

  function Payloads<E>(arrived: seq<Message<E>>): (r: seq<Block<E>>)
    ensures |r| == |arrived| && forall i :: 0 <= i < |r| ==> r[i] == arrived[i].block
  {
    seq(|arrived|, i requires 0 <= i < |arrived| => arrived[i].block)
  }

  ghost predicate SizesOk<E>(arrived: seq<Message<E>>, size: nat) {
    forall i :: 0 <= i < |arrived| ==> |arrived[i].block| == size
  }

  /** Word p of every arrived block of one parity, in arrival order. */
  ghost function WordsFor<E>(arrived: seq<Message<E>>, parity: nat, size: nat, p: nat): seq<E>
    requires SizesOk(arrived, size) && p < size
  {
    if arrived == [] then []
    else
      var n := |arrived| - 1;
      WordsFor(arrived[..n], parity, size, p)
        + (if arrived[n].parity == parity then [arrived[n].block[p]] else [])
  }

  /** The block the receiver adds up for one parity. */
  ghost function Added<E>(f: Field<E>, arrived: seq<Message<E>>, parity: nat, size: nat): (r: Block<E>)
    requires SizesOk(arrived, size)
    ensures |r| == size && forall p :: 0 <= p < size ==> r[p] == Sum(f, WordsFor(arrived, parity, size, p))
  {
    seq(size, p requires 0 <= p < size => Sum(f, WordsFor(arrived, parity, size, p)))
  }

  /** The blocks the receiver adds up for all the parities. */
  ghost function AddedAll<E>(f: Field<E>, arrived: seq<Message<E>>, rows: seq<nat>, size: nat): (r: seq<Block<E>>)
    requires SizesOk(arrived, size)
    ensures IsTable(r, |rows|, size) && forall u :: 0 <= u < |rows| ==> r[u] == Added(f, arrived, rows[u], size)
  {
    seq(|rows|, u requires 0 <= u < |rows| => Added(f, arrived, rows[u], size))
  }

  /** The addition method computes `Added`. */
  lemma AdditionAddsUp<E(!new)>(f: Field<E>, arrived: seq<Message<E>>, parity: nat, size: nat)
    requires Laws(f) && SizesOk(arrived, size)
    ensures var mine := Selected(Payloads(arrived), Parities(arrived), parity, size);
            CodingBlock(f, Ones(f, |mine|), mine, size) == Added(f, arrived, parity, size)
  {
    var mine := Selected(Payloads(arrived), Parities(arrived), parity, size);
    forall p | 0 <= p < size
      ensures Dot(f, Ones(f, |mine|), Column(mine, p)) == Sum(f, WordsFor(arrived, parity, size, p))
    {
      SelectedWords(arrived, parity, size, p);
      OnesAddUp(f, Column(mine, p));
    }
  }

  lemma OnesAddUp<E(!new)>(f: Field<E>, v: seq<E>)
    requires Laws(f)
    ensures Dot(f, Ones(f, |v|), v) == Sum(f, v)
  {
    forall i | 0 <= i < |v|
      ensures MulVec(f, Ones(f, |v|), v)[i] == v[i]
    {
      LawsAt(f, v[i], v[i], v[i]);
    }
    assert MulVec(f, Ones(f, |v|), v) == v;
  }

  lemma {:induction false} SelectedWords<E>(arrived: seq<Message<E>>, parity: nat, size: nat, p: nat)
    requires SizesOk(arrived, size) && p < size
    ensures Column(Selected(Payloads(arrived), Parities(arrived), parity, size), p) == WordsFor(arrived, parity, size, p)
  {
    if arrived != [] {
      var n := |arrived| - 1;
      SelectedWords(arrived[..n], parity, size, p);
      assert Payloads(arrived)[..n] == Payloads(arrived[..n]) && Parities(arrived)[..n] == Parities(arrived[..n]);
    }
  }

  lemma {:induction false} WordsConcat<E>(a: seq<Message<E>>, b: seq<Message<E>>, parity: nat, size: nat, p: nat)
    requires SizesOk(a, size) && SizesOk(b, size) && p < size
    ensures SizesOk(a + b, size)
    ensures WordsFor(a + b, parity, size, p) == WordsFor(a, parity, size, p) + WordsFor(b, parity, size, p)
  {
    if b == [] {
      assert a + b == a;
    } else {
      var n := |b| - 1;
      WordsConcat(a, b[..n], parity, size, p);
      assert (a + b)[..|a + b| - 1] == a + b[..n];
    }
  }

  lemma WordsSum<E(!new)>(f: Field<E>, a: seq<Message<E>>, b: seq<Message<E>>, parity: nat, size: nat, p: nat)
    requires Laws(f) && SizesOk(a, size) && SizesOk(b, size) && p < size
    ensures SizesOk(a + b, size)
    ensures Sum(f, WordsFor(a + b, parity, size, p))
            == f.add(Sum(f, WordsFor(a, parity, size, p)), Sum(f, WordsFor(b, parity, size, p)))
  {
    WordsConcat(a, b, parity, size, p);
    SumConcat(f, WordsFor(a, parity, size, p), WordsFor(b, parity, size, p));
  }

  /** Any one message can be moved to the front. */
  lemma MessageToFront<E(!new)>(f: Field<E>, a: seq<Message<E>>, x: seq<Message<E>>, b: seq<Message<E>>, parity: nat,
                                size: nat, p: nat)
    requires Laws(f) && SizesOk(a, size) && SizesOk(x, size) && SizesOk(b, size) && p < size
    ensures SizesOk((a + x) + b, size) && SizesOk(a + b, size)
    ensures Sum(f, WordsFor((a + x) + b, parity, size, p))
            == f.add(Sum(f, WordsFor(x, parity, size, p)), Sum(f, WordsFor(a + b, parity, size, p)))
  {
    WordsSum(f, a, x, parity, size, p);
    WordsSum(f, a + x, b, parity, size, p);
    WordsSum(f, a, b, parity, size, p);
    var sa, sx, sb := Sum(f, WordsFor(a, parity, size, p)), Sum(f, WordsFor(x, parity, size, p)),
                      Sum(f, WordsFor(b, parity, size, p));
    LawsAt(f, sa, sx, sb);
    LawsAt(f, sx, sa, sb);
  }

  lemma SameFirst<E(!new)>(f: Field<E>, s: seq<Message<E>>, t: seq<Message<E>>, j: nat, parity: nat, size: nat, p: nat)
    requires Laws(f) && SizesOk(s, size) && SizesOk(t, size) && p < size
    requires s != [] && j < |t| && t[j] == s[0]
    requires SizesOk(s[1..], size) && SizesOk(t[..j] + t[j + 1..], size)
    requires Sum(f, WordsFor(s[1..], parity, size, p)) == Sum(f, WordsFor(t[..j] + t[j + 1..], parity, size, p))
    ensures Sum(f, WordsFor(s, parity, size, p)) == Sum(f, WordsFor(t, parity, size, p))
  {
    hide WordsFor, Sum;
    var x, a, b := [s[0]], t[..j], t[j + 1..];
    assert s == x + s[1..] && t == (a + x) + b;
    WordsSum(f, x, s[1..], parity, size, p);
    MessageToFront(f, a, x, b, parity, size, p);
  }

  /** Arrival order does not matter. */
  lemma {:induction false} OrderIrrelevant<E(!new)>(f: Field<E>, s: seq<Message<E>>, t: seq<Message<E>>, parity: nat,
                                                    size: nat, p: nat)
    requires Laws(f) && multiset(s) == multiset(t) && SizesOk(s, size) && SizesOk(t, size) && p < size
    ensures Sum(f, WordsFor(s, parity, size, p)) == Sum(f, WordsFor(t, parity, size, p))
    decreases |s|
  {
    if s == [] {
      assert |multiset(t)| == 0;
    } else {
      hide WordsFor, Sum;
      var j := FirstTermIn(s, t);
      OrderIrrelevant(f, s[1..], t[..j] + t[j + 1..], parity, size, p);
      SameFirst(f, s, t, j, parity, size, p);
    }
  }

  // What the clusters send.

  /** The partial blocks a cluster computes from the blocks it holds. */
  function PartialBlocks<E>(f: Field<E>, h: seq<seq<E>>, rows: seq<nat>, cols: seq<nat>, stripe: seq<Block<E>>, size: nat)
      : (r: seq<Block<E>>)
    requires IsTable(stripe, |stripe|, size) && IsTable(h, |h|, |stripe|) && InRange(rows, |h|) && InRange(cols, |stripe|)
    ensures IsTable(r, |rows|, size)
  {
    EncodeBlocks(f, SubMatrix(h, rows, cols, |stripe|), Pick(stripe, cols), size)
  }

  lemma PartialByWord<E>(f: Field<E>, h: seq<seq<E>>, rows: seq<nat>, cols: seq<nat>, stripe: seq<Block<E>>, size: nat,
                         p: nat)
    requires IsTable(stripe, |stripe|, size) && IsTable(h, |h|, |stripe|) && InRange(rows, |h|) && InRange(cols, |stripe|)
    requires p < size
    ensures Column(PartialBlocks(f, h, rows, cols, stripe, size), p) == Partial(f, h, rows, cols, Column(stripe, p))
  {
    assert Column(Pick(stripe, cols), p) == Pick(Column(stripe, p), cols);
    EncodeByWord(f, SubMatrix(h, rows, cols, |stripe|), Pick(stripe, cols), size, p);
  }

  /** One message per parity for which the cluster's flag is set. */
  function Messages<E>(rows: seq<nat>, blocks: seq<Block<E>>, flags: seq<bool>): (r: seq<Message<E>>)
    requires |rows| == |blocks| == |flags|
    ensures forall i :: 0 <= i < |r| ==> r[i].block in blocks
  {
    if rows == [] then []
    else
      var n := |rows| - 1;
      Messages(rows[..n], blocks[..n], flags[..n]) + (if flags[n] then [Message(rows[n], blocks[n])] else [])
  }

  /** All the clusters' messages, in cluster order. */
  ghost function AllMessages<E>(f: Field<E>, h: seq<seq<E>>, rows: seq<nat>, clusters: seq<seq<nat>>, stripe: seq<Block<E>>,
                                size: nat, flags: seq<seq<bool>>): (r: seq<Message<E>>)
    requires IsTable(stripe, |stripe|, size) && IsTable(h, |h|, |stripe|) && InRange(rows, |h|)
    requires forall c :: 0 <= c < |clusters| ==> InRange(clusters[c], |stripe|)
    requires IsTable(flags, |clusters|, |rows|)
    ensures SizesOk(r, size)
  {
    if clusters == [] then []
    else
      var n := |clusters| - 1;
      AllMessages(f, h, rows, clusters[..n], stripe, size, flags[..n])
        + Messages(rows, PartialBlocks(f, h, rows, clusters[n], stripe, size), flags[n])
  }

  /** A cluster leaves a partial block out only when it is zero. */
  ghost predicate FlagsHonest<E>(f: Field<E>, h: seq<seq<E>>, rows: seq<nat>, clusters: seq<seq<nat>>, stripe: seq<Block<E>>,
                                 size: nat, flags: seq<seq<bool>>)
    requires IsTable(stripe, |stripe|, size) && IsTable(h, |h|, |stripe|) && InRange(rows, |h|)
    requires forall c :: 0 <= c < |clusters| ==> InRange(clusters[c], |stripe|)
    requires IsTable(flags, |clusters|, |rows|)
  {
    forall c, u :: 0 <= c < |clusters| && 0 <= u < |rows| && !flags[c][u] ==>
      PartialBlocks(f, h, rows, clusters[c], stripe, size)[u] == Zeros(f, size)
  }

  lemma {:induction false} MessageWords<E(!new)>(f: Field<E>, rows: seq<nat>, blocks: seq<Block<E>>, flags: seq<bool>,
                                                 size: nat, u: nat, p: nat)
    requires Laws(f) && |rows| == |flags| && IsTable(blocks, |rows|, size) && NoRepeats(rows) && u < |rows| && p < size
    requires !flags[u] ==> blocks[u] == Zeros(f, size)
    ensures SizesOk(Messages(rows, blocks, flags), size)
    ensures Sum(f, WordsFor(Messages(rows, blocks, flags), rows[u], size, p)) == blocks[u][p]
  {
    var n := |rows| - 1;
    var before := Messages(rows[..n], blocks[..n], flags[..n]);
    var last := if flags[n] then [Message(rows[n], blocks[n])] else [];
    assert Messages(rows, blocks, flags) == before + last;
    NoRepeatsBefore(rows, n);
    hide Messages, WordsFor, Sum, NoRepeats;
    WordsSum(f, before, last, rows[u], size, p);
    LawsAt(f, blocks[u][p], f.zero, f.zero);
    if u < n {
      MessageWords(f, rows[..n], blocks[..n], flags[..n], size, u, p);
      NoneOfOther(f, rows[n], blocks[n], flags[n], rows[u], size, p);
    } else {
      assert u == n;
      NoneBefore(rows[..n], blocks[..n], flags[..n], rows[n], size, p);
      SumZeros(f, []);
      LastMessage(f, rows[n], blocks[n], flags[n], size, p);
    }
  }

  lemma NoneOfOther<E(!new)>(f: Field<E>, row: nat, block: Block<E>, flag: bool, key: nat, size: nat, p: nat)
    requires |block| == size && p < size && key != row
    ensures var last := if flag then [Message(row, block)] else [];
            SizesOk(last, size) && Sum(f, WordsFor(last, key, size, p)) == f.zero
  {
    if flag {
      assert WordsFor([Message(row, block)], key, size, p) == [];
    }
  }

  lemma LastMessage<E(!new)>(f: Field<E>, row: nat, block: Block<E>, flag: bool, size: nat, p: nat)
    requires Laws(f) && |block| == size && p < size && (!flag ==> block == Zeros(f, size))
    ensures var last := if flag then [Message(row, block)] else [];
            SizesOk(last, size) && Sum(f, WordsFor(last, row, size, p)) == block[p]
  {
    Snoc(f, [], block[p]);
    LawsAt(f, block[p], block[p], block[p]);
    if flag {
      assert WordsFor([Message(row, block)], row, size, p) == [block[p]];
    }
  }

  lemma {:induction false} NoneBefore<E>(rows: seq<nat>, blocks: seq<Block<E>>, flags: seq<bool>, key: nat, size: nat, p: nat)
    requires |rows| == |flags| && IsTable(blocks, |rows|, size) && key !in rows && p < size
    ensures SizesOk(Messages(rows, blocks, flags), size)
    ensures WordsFor(Messages(rows, blocks, flags), key, size, p) == []
  {
    if rows != [] {
      var n := |rows| - 1;
      NoneBefore(rows[..n], blocks[..n], flags[..n], key, size, p);
      var last := if flags[n] then [Message(rows[n], blocks[n])] else [];
      WordsConcat(Messages(rows[..n], blocks[..n], flags[..n]), last, key, size, p);
    }
  }

  /** Adding up all the messages of one parity gives the clusters' total, word by word. */
  lemma {:induction false} MessagesAddUp<E(!new)>(f: Field<E>, h: seq<seq<E>>, rows: seq<nat>, clusters: seq<seq<nat>>,
                                                  stripe: seq<Block<E>>, size: nat, flags: seq<seq<bool>>, u: nat, p: nat)
    requires Laws(f) && IsTable(stripe, |stripe|, size) && IsTable(h, |h|, |stripe|)
    requires InRange(rows, |h|) && NoRepeats(rows) && u < |rows| && p < size
    requires forall c :: 0 <= c < |clusters| ==> InRange(clusters[c], |stripe|)
    requires IsTable(flags, |clusters|, |rows|) && FlagsHonest(f, h, rows, clusters, stripe, size, flags)
    ensures Sum(f, WordsFor(AllMessages(f, h, rows, clusters, stripe, size, flags), rows[u], size, p))
            == TotalPartial(f, h, rows, clusters, Column(stripe, p))[u]
  {
    if clusters != [] {
      var n := |clusters| - 1;
      var last := PartialBlocks(f, h, rows, clusters[n], stripe, size);
      MessagesAddUp(f, h, rows, clusters[..n], stripe, size, flags[..n], u, p);
      MessageWords(f, rows, last, flags[n], size, u, p);
      PartialByWord(f, h, rows, clusters[n], stripe, size, p);
      var before := AllMessages(f, h, rows, clusters[..n], stripe, size, flags[..n]);
      WordsConcat(before, Messages(rows, last, flags[n]), rows[u], size, p);
      SumConcat(f, WordsFor(before, rows[u], size, p), WordsFor(Messages(rows, last, flags[n]), rows[u], size, p));
    }
  }

  /** Every word position of the stripe is annihilated by the chosen rows. */
  ghost predicate StripeOk<E>(f: Field<E>, h: seq<seq<E>>, rows: seq<nat>, stripe: seq<Block<E>>, size: nat)
    requires IsTable(stripe, |stripe|, size) && IsTable(h, |h|, |stripe|) && InRange(rows, |h|)
  {
    forall p :: 0 <= p < size ==> Annihilates(f, h, rows, Column(stripe, p))
  }

  /** The messages sent, whatever order they arrive in. */
  ghost predicate Delivered<E>(arrived: seq<Message<E>>, f: Field<E>, h: seq<seq<E>>, rows: seq<nat>,
                               clusters: seq<seq<nat>>, stripe: seq<Block<E>>, size: nat, flags: seq<seq<bool>>)
    requires IsTable(stripe, |stripe|, size) && IsTable(h, |h|, |stripe|) && InRange(rows, |h|)
    requires forall c :: 0 <= c < |clusters| ==> InRange(clusters[c], |stripe|)
    requires IsTable(flags, |clusters|, |rows|)
  {
    && SizesOk(arrived, size)
    && multiset(arrived) == multiset(AllMessages(f, h, rows, clusters, stripe, size, flags))
    && FlagsHonest(f, h, rows, clusters, stripe, size, flags)
  }

  /** What the receiver adds up is, word by word, the clusters' total. */
  lemma ReceivedIsTotal<E(!new)>(f: Field<E>, h: seq<seq<E>>, rows: seq<nat>, clusters: seq<seq<nat>>,
                                 stripe: seq<Block<E>>, size: nat, flags: seq<seq<bool>>, arrived: seq<Message<E>>, p: nat)
    requires Laws(f) && IsTable(stripe, |stripe|, size) && IsTable(h, |h|, |stripe|)
    requires InRange(rows, |h|) && NoRepeats(rows) && p < size
    requires forall c :: 0 <= c < |clusters| ==> InRange(clusters[c], |stripe|)
    requires IsTable(flags, |clusters|, |rows|) && Delivered(arrived, f, h, rows, clusters, stripe, size, flags)
    ensures Column(AddedAll(f, arrived, rows, size), p) == TotalPartial(f, h, rows, clusters, Column(stripe, p))
  {
    forall u | 0 <= u < |rows|
      ensures Column(AddedAll(f, arrived, rows, size), p)[u] == TotalPartial(f, h, rows, clusters, Column(stripe, p))[u]
    {
      OrderIrrelevant(f, arrived, AllMessages(f, h, rows, clusters, stripe, size, flags), rows[u], size, p);
      MessagesAddUp(f, h, rows, clusters, stripe, size, flags, u, p);
    }
  }

  /** Adding the partial parities and decoding restores exactly the lost blocks. */
  lemma RepairRestoresBlocks<E(!new)>(f: Field<E>, h: seq<seq<E>>, rows: seq<nat>, lost: seq<nat>,
                                      clusters: seq<seq<nat>>, stripe: seq<Block<E>>, size: nat,
                                      flags: seq<seq<bool>>, arrived: seq<Message<E>>, inv: seq<seq<E>>)
    requires Laws(f) && IsTable(stripe, |stripe|, size) && IsTable(h, |h|, |stripe|)
    requires InRange(rows, |h|) && NoRepeats(rows) && StripeOk(f, h, rows, stripe, size)
    requires SplitsSupport(f, h, rows, lost, clusters, |stripe|) && InRange(lost, |stripe|)
    requires forall c :: 0 <= c < |clusters| ==> InRange(clusters[c], |stripe|)
    requires IsTable(flags, |clusters|, |rows|) && Delivered(arrived, f, h, rows, clusters, stripe, size, flags)
    requires IsLeftInverse(f, inv, SubMatrix(h, rows, lost, |stripe|), |lost|)
    ensures EncodeBlocks(f, inv, AddedAll(f, arrived, rows, size), size) == Pick(stripe, lost)
  {
    var sums := AddedAll(f, arrived, rows, size);
    var out := EncodeBlocks(f, inv, sums, size);
    forall i, p | 0 <= i < |lost| && 0 <= p < size
      ensures out[i][p] == stripe[lost[i]][p]
    {
      ReceivedIsTotal(f, h, rows, clusters, stripe, size, flags, arrived, p);
      DecodedSumIsLost(f, h, rows, lost, clusters, Column(stripe, p), inv);
      assert out[i][p] == MatVec(f, inv, Column(sums, p))[i];
    }
    forall i | 0 <= i < |lost|
      ensures out[i] == stripe[lost[i]]
    {
    }
  }
}

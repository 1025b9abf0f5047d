/**
 Recalculating parities at the main proxy of a merge. Blocks of its own cluster and of small clusters
 arrive as they are, larger clusters send partial blocks, and the reading threads finish in any order.
 */
module Recalculation {
  import opened Listing
  import opened Partitions
  import opened Fields
  import opened Sums
  import opened Matrices
  import opened RepairAlgebra
  import opened ErasureCode
  import opened BlockRepair
  import opened Deviations

  /** A reading thread: it brings single blocks, or the partial blocks of a whole cluster. */
  datatype Reader = Reader(partial: bool, idxs: seq<nat>)

  function Idxs(readers: seq<Reader>): (r: seq<seq<nat>>)
    ensures |r| == |readers| && forall i :: 0 <= i < |r| ==> r[i] == readers[i].idxs
  {
    seq(|readers|, i requires 0 <= i < |readers| => readers[i].idxs)
  }

  /** The blocks to read hold what the new stripe will hold. */
  ghost predicate StoredOk<E>(stored: seq<Block<E>>, truth: seq<Block<E>>, all: seq<nat>, size: nat) {
    && |stored| == |truth| && IsTable(truth, |truth|, size)
    && forall i :: 0 <= i < |all| ==> all[i] < |truth| && stored[all[i]] == truth[all[i]]
  }

  /** The equations: the wanted parities stand alone in them. */
  ghost predicate JobOk<E(!new)>(c: Job<E>) {
    && Laws(c.f) && Shaped(c) && NoRepeats(c.rows) && StripeOk(c.f, c.h, c.rows, c.truth, c.size)
    && SubMatrix(c.h, c.rows, c.rows, |c.truth|) == Identity(c.f, |c.rows|)
  }

  /** All else they involve will be read. */
  ghost predicate RecalOk<E(!new)>(c: Job<E>, all: seq<nat>) {
    JobOk(c) && SplitsSupport(c.f, c.h, c.rows, c.rows, [all], |c.truth|)
  }

  /** The help clusters that send partial blocks: those with more blocks than there are parities. */
  function SentPartial(help: seq<seq<nat>>, parityNum: nat, partialDecoding: bool): seq<seq<nat>> {
    if help == [] then []
    else
      var n := |help| - 1;
      SentPartial(help[..n], parityNum, partialDecoding)
        + (if |help[n]| > parityNum && partialDecoding then [help[n]] else [])
  }

  /** No help cluster sends partial blocks: none has more than m blocks, or partial decoding is off. */
  ghost predicate NoneSendsPartial(help: seq<seq<nat>>, m: nat, partialDecoding: bool) {
    !partialDecoding || forall i :: 0 <= i < |help| ==> |help[i]| <= m
  }

  lemma {:induction false} NoneSendsWhen(help: seq<seq<nat>>, m: nat, partialDecoding: bool)
    ensures SentPartial(help, m, partialDecoding) == [] <==> NoneSendsPartial(help, m, partialDecoding)
  {
    if help != [] {
      var n := |help| - 1;
      NoneSendsWhen(help[..n], m, partialDecoding);
      assert forall i :: 0 <= i < n ==> help[..n][i] == help[i];
    }
  }

  /** Distinct clusters send distinct sets. */
  lemma {:induction false} SentApart(help: seq<seq<nat>>, m: nat, partialDecoding: bool)
    requires NoRepeats(Concat(help))
    ensures NoRepeats(SentPartial(help, m, partialDecoding))
    ensures forall x :: x in SentPartial(help, m, partialDecoding) ==> x in help && x != []
  {
    if help != [] {
      var n := |help| - 1;
      var before := SentPartial(help[..n], m, partialDecoding);
      assert forall i :: 0 <= i < |Concat(help[..n])| ==> Concat(help[..n])[i] == Concat(help)[i];
      SentApart(help[..n], m, partialDecoding);
      NoRepeatsMeansApart(help);
      forall i | 0 <= i < |before| && help[n] != []
        ensures before[i] != help[n]
      {
        assert before[i] in before;
        var j :| 0 <= j < n && help[j] == before[i];
        assert help[j][0] == help[n][0] ==> j == n;
      }
    }
  }

  lemma HelpFromAll(own: seq<nat>, help: seq<seq<nat>>, k: nat)
    requires NoRepeats(own + Concat(help)) && InRange(own + Concat(help), k)
    ensures NoRepeats(Concat(help)) && forall i :: 0 <= i < |help| ==> InRange(help[i], k)
  {
    hide NoRepeats, Concat;
    SplitInRange(own, help, k);
    NoRepeatsAfter(own, Concat(help));
  }

  lemma NoRepeatsAfter<X>(s: seq<X>, t: seq<X>)
    requires NoRepeats(s + t)
    ensures NoRepeats(t)
  {
    assert forall i :: 0 <= i < |t| ==> t[i] == (s + t)[|s| + i];
  }

  /** The sets of blocks that readers bring as partial blocks. */
  function PartialSets(readers: seq<Reader>): seq<seq<nat>> {
    if readers == [] then []
    else
      var n := |readers| - 1;
      PartialSets(readers[..n]) + (if readers[n].partial then [readers[n].idxs] else [])
  }

  lemma {:induction false} PartialSetsBoth(a: seq<Reader>, b: seq<Reader>)
    ensures PartialSets(a + b) == PartialSets(a) + PartialSets(b)
  {
    if b == [] {
      assert a + b == a;
    } else {
      var n := |b| - 1;
      PartialSetsBoth(a, b[..n]);
      assert (a + b)[..|a + b| - 1] == a + b[..n];
    }
  }

  lemma PartialSetsOne(readers: seq<Reader>, one: Reader)
    ensures PartialSets(readers + [one]) == PartialSets(readers) + (if one.partial then [one.idxs] else [])
  {
    assert (readers + [one])[..|readers|] == readers;
  }

  /** Taking one reader out takes out the set it brings. */
  lemma PartialSetOut(readers: seq<Reader>, r: nat)
    requires r < |readers|
    ensures var a, b := PartialSets(readers[..r]), PartialSets(readers[r + 1..]);
            && PartialSets(readers) == a + (if readers[r].partial then [readers[r].idxs] else []) + b
            && PartialSets(readers[..r] + readers[r + 1..]) == a + b
  {
    hide PartialSets;
    TakenApart(readers, r);
    PartialSetBetween(readers[..r], readers[r], readers[r + 1..]);
  }

  lemma TakenApart<X>(s: seq<X>, r: nat)
    requires r < |s|
    ensures s == s[..r] + [s[r]] + s[r + 1..]
  {
  }

  lemma PartialSetBetween(a: seq<Reader>, one: Reader, b: seq<Reader>)
    ensures PartialSets(a + [one] + b) == PartialSets(a) + (if one.partial then [one.idxs] else []) + PartialSets(b)
    ensures PartialSets(a + b) == PartialSets(a) + PartialSets(b)
  {
    hide PartialSets;
    PartialSetsBoth(a + [one], b);
    PartialSetsOne(a, one);
    PartialSetsBoth(a, b);
  }

  /** The sets that have arrived and those still to come are all the sets. */
  lemma SetMoves<X>(sets: seq<X>, a: seq<X>, x: seq<X>, b: seq<X>, all: seq<X>)
    requires Permuted(sets + (a + x + b), all)
    ensures Permuted((sets + x) + (a + b), all)
  {
    assert multiset(sets + (a + x + b)) == multiset(sets) + multiset(a) + multiset(x) + multiset(b);
    assert multiset((sets + x) + (a + b)) == multiset(sets) + multiset(x) + multiset(a) + multiset(b);
  }

  // The order of arrival.

  /** What has arrived and what is still being read are all the blocks. */
  ghost predicate Reading(sets: seq<seq<nat>>, originals: seq<nat>, readers: seq<Reader>, all: seq<nat>) {
    SameBlocks((Concat(sets) + originals) + Concat(Idxs(readers)), all)
  }

  lemma ReaderOut(readers: seq<Reader>, r: nat)
    requires r < |readers|
    ensures SameBlocks(readers[r].idxs + Concat(Idxs(readers[..r] + readers[r + 1..])), Concat(Idxs(readers)))
  {
    var a, b := readers[..r], readers[r + 1..];
    assert Idxs(a + b) == Idxs(a) + Idxs(b);
    assert Idxs(readers) == (Idxs(a) + [readers[r].idxs]) + Idxs(b);
    ConcatTwo(Idxs(a), Idxs(b));
    ConcatTwo(Idxs(a) + [readers[r].idxs], Idxs(b));
    ConcatSnoc(Idxs(a), readers[r].idxs);
  }

  lemma Rearrange<X>(s: seq<X>, o: seq<X>, x: seq<X>, rest: seq<X>, left: seq<X>, all: seq<X>)
    requires multiset((s + o) + left) == multiset(all) && multiset(x + rest) == multiset(left)
    ensures multiset(((s + x) + o) + rest) == multiset(all)
    ensures multiset((s + (o + x)) + rest) == multiset(all)
  {
    var ms, mo, mx, mr := multiset(s), multiset(o), multiset(x), multiset(rest);
    assert ((ms + mx) + mo) + mr == (ms + mo) + (mx + mr);
    assert (ms + (mo + mx)) + mr == (ms + mo) + (mx + mr);
  }

  /** One reader finishes, as any of them may. */
  lemma ReaderDone(sets: seq<seq<nat>>, originals: seq<nat>, readers: seq<Reader>, all: seq<nat>, r: nat)
    requires Reading(sets, originals, readers, all) && r < |readers|
    ensures Reading(sets + [readers[r].idxs], originals, readers[..r] + readers[r + 1..], all)
    ensures Reading(sets, originals + readers[r].idxs, readers[..r] + readers[r + 1..], all)
  {
    hide Idxs;
    var rest := readers[..r] + readers[r + 1..];
    ReaderOut(readers, r);
    ConcatSnoc(sets, readers[r].idxs);
    Rearrange(Concat(sets), originals, readers[r].idxs, Concat(Idxs(rest)), Concat(Idxs(readers)), all);
  }

  /** Any split of the blocks read serves the equations. */
  lemma SplitAgain<E>(f: Field<E>, h: seq<seq<E>>, rows: seq<nat>, all: seq<nat>, clusters: seq<seq<nat>>, n: nat)
    requires IsTable(h, |h|, n) && InRange(rows, |h|) && SplitsSupport(f, h, rows, rows, [all], n)
    requires SameBlocks(Concat(clusters), all)
    ensures SplitsSupport(f, h, rows, rows, clusters, n) && forall i :: 0 <= i < |clusters| ==> InRange(clusters[i], n)
  {
    hide Concat, SameBlocks;
    ConcatOne(all);
    PutBefore(rows, Concat(clusters), all);
    var s, t := rows + Concat(clusters), rows + all;
    SameLists(s, t, n);
    forall u, j | 0 <= u < |rows| && 0 <= j < n && h[rows[u]][j] != f.zero
      ensures j in s
    {
      assert j in t;
    }
    SplitInRange(rows, clusters, n);
  }

  lemma ConcatOne(all: seq<nat>)
    ensures Concat([all]) == all
  {
    ConcatSnoc([], all);
    assert [] + [all] == [all];
  }

  lemma PutBefore(rows: seq<nat>, a: seq<nat>, b: seq<nat>)
    requires SameBlocks(a, b)
    ensures SameBlocks(rows + a, rows + b)
  {
  }

  lemma SameLists(s: seq<nat>, t: seq<nat>, n: nat)
    requires SameBlocks(s, t) && NoRepeats(t) && InRange(t, n)
    ensures NoRepeats(s) && InRange(s, n) && forall x :: x in s <==> x in t
  {
    SameMembers(s, t);
    forall i | 0 <= i < |s|
      ensures s[i] < n
    {
      assert s[i] in t;
    }
  }

  /** The reading threads: one for each block that comes as it is, one for each set of partial blocks. */
  method StartReaders(own: seq<nat>, help: seq<seq<nat>>, parityNum: nat, partialDecoding: bool) returns (readers: seq<Reader>)
    ensures Concat(Idxs(readers)) == own + Concat(help)
    ensures PartialSets(readers) == SentPartial(help, parityNum, partialDecoding)
  {
    hide Concat;
    readers := SingleReaders([], own);
    NoHelp(own);
    for i := 0 to |help|
      invariant Concat(Idxs(readers)) == own + Concat(help[..i])
      invariant PartialSets(readers) == SentPartial(help[..i], parityNum, partialDecoding)
    {
      assert help[..i + 1] == help[..i] + [help[i]] && help[..i + 1][..i] == help[..i];
      ConcatSnoc(help[..i], help[i]);
      if |help[i]| > parityNum && partialDecoding {
        OneReader(readers, Reader(true, help[i]));
        readers := readers + [Reader(true, help[i])];
      } else {
        readers := SingleReaders(readers, help[i]);
      }
    }
    assert help[..|help|] == help;
  }

  lemma NoHelp(own: seq<nat>)
    ensures Concat([]) == [] && own + [] == own
  {
  }

  lemma OneReader(readers: seq<Reader>, one: Reader)
    ensures Concat(Idxs(readers + [one])) == Concat(Idxs(readers)) + one.idxs
    ensures PartialSets(readers + [one]) == PartialSets(readers) + (if one.partial then [one.idxs] else [])
  {
    assert Idxs(readers + [one]) == Idxs(readers) + [one.idxs];
    ConcatSnoc(Idxs(readers), one.idxs);
    PartialSetsOne(readers, one);
  }

  method SingleReaders(readers0: seq<Reader>, blocks: seq<nat>) returns (readers: seq<Reader>)
    ensures Concat(Idxs(readers)) == Concat(Idxs(readers0)) + blocks && PartialSets(readers) == PartialSets(readers0)
  {
    hide Concat, Idxs, PartialSets;
    readers := readers0;
    for j := 0 to |blocks|
      invariant Concat(Idxs(readers)) == Concat(Idxs(readers0)) + blocks[..j] && PartialSets(readers) == PartialSets(readers0)
    {
      OneReader(readers, Reader(false, [blocks[j]]));
      readers := readers + [Reader(false, [blocks[j]])];
    }
  }

  /** The partial parities of the blocks at hand. */
  method PartialParities<E(0)>(f: Field<E>, n: nat, flat: seq<E>, rows: seq<nat>, idxs: seq<nat>, data: seq<Block<E>>,
                               size: nat, ghost c: Job<E>) returns (blocks: seq<Block<E>>)
    requires n * n <= |flat| && c == Job(f, TableOf(flat, n, n), rows, c.truth, size) && |c.truth| == n && Shaped(c)
    requires InRange(idxs, n) && data == Pick(c.truth, idxs)
    ensures blocks == Due(c, idxs)
  {
    var coding := new Block<E>[|rows|](_ => []);
    EncodePartialBlocksForParities(f, n, flat, data, coding, size, idxs, rows, n);
    blocks := coding[..];
  }

  /** What a reader brings is among the blocks to read. */
  lemma ReadersOk(all: seq<nat>, sets: seq<seq<nat>>, originals: seq<nat>, readers: seq<Reader>, r: nat)
    requires Reading(sets, originals, readers, all) && r < |readers|
    ensures forall i :: 0 <= i < |readers[r].idxs| ==> readers[r].idxs[i] in all
  {
    hide Concat, SameBlocks;
    var pending := Concat(Idxs(readers));
    StillAll(Concat(sets) + originals, pending, all);
    forall i | 0 <= i < |readers[r].idxs|
      ensures readers[r].idxs[i] in all
    {
      var at := InConcat(Idxs(readers), r, i);
    }
  }

  lemma StillAll(done: seq<nat>, pending: seq<nat>, all: seq<nat>)
    requires SameBlocks(done + pending, all)
    ensures forall i :: 0 <= i < |pending| ==> pending[i] in all
  {
    forall i | 0 <= i < |pending|
      ensures pending[i] in all
    {
      assert (done + pending)[|done| + i] == pending[i];
      AlsoIn(done + pending, all, pending[i]);
    }
  }

  lemma AlsoIn<X>(s: seq<X>, t: seq<X>, x: X)
    requires multiset(s) == multiset(t) && x in s
    ensures x in t
  {
    assert x in multiset(s);
    assert x in multiset(t);
  }

  // Adding up.

  /** One message for each parity. */
  function OneEach<E>(rows: seq<nat>, blocks: seq<Block<E>>): (r: seq<Message<E>>)
    requires |rows| == |blocks|
    ensures |r| == |rows| && forall i :: 0 <= i < |r| ==> r[i] == Message(rows[i], blocks[i])
  {
    seq(|rows|, i requires 0 <= i < |rows| => Message(rows[i], blocks[i]))
  }

  lemma {:induction false} AllSetMessages<E>(rows: seq<nat>, blocks: seq<Block<E>>, flags: seq<bool>)
    requires |rows| == |blocks| == |flags| && forall i :: 0 <= i < |flags| ==> flags[i]
    ensures Messages(rows, blocks, flags) == OneEach(rows, blocks)
  {
    if rows != [] {
      var n := |rows| - 1;
      AllSetMessages(rows[..n], blocks[..n], flags[..n]);
      assert OneEach(rows, blocks) == OneEach(rows[..n], blocks[..n]) + [Message(rows[n], blocks[n])];
    }
  }

  /** The messages of whole sets of partial blocks. */
  ghost function Sent<E>(rows: seq<nat>, tables: seq<seq<Block<E>>>, size: nat): (r: seq<Message<E>>)
    requires forall i :: 0 <= i < |tables| ==> IsTable(tables[i], |rows|, size)
    ensures SizesOk(r, size)
  {
    if tables == [] then []
    else
      var n := |tables| - 1;
      assert IsTable(tables[n], |rows|, size);
      Sent(rows, tables[..n], size) + OneEach(rows, tables[n])
  }

  ghost function TableWords<E>(tables: seq<seq<Block<E>>>, rowNum: nat, size: nat, u: nat, p: nat): (r: seq<E>)
    requires (forall i :: 0 <= i < |tables| ==> IsTable(tables[i], rowNum, size)) && u < rowNum && p < size
    ensures |r| == |tables| && forall i :: 0 <= i < |r| ==> IsTable(tables[i], rowNum, size) && r[i] == tables[i][u][p]
  {
    seq(|tables|, i requires 0 <= i < |tables| && IsTable(tables[i], rowNum, size) => tables[i][u][p])
  }

  lemma {:induction false} SentAddsUp<E(!new)>(f: Field<E>, rows: seq<nat>, tables: seq<seq<Block<E>>>, size: nat, u: nat, p: nat)
    requires Laws(f) && NoRepeats(rows) && (forall i :: 0 <= i < |tables| ==> IsTable(tables[i], |rows|, size))
    requires u < |rows| && p < size
    ensures Sum(f, WordsFor(Sent(rows, tables, size), rows[u], size, p)) == Sum(f, TableWords(tables, |rows|, size, u, p))
  {
    hide WordsFor;
    if tables == [] {
      NoWords<E>(rows[u], size, p);
    } else {
      var n := |tables| - 1;
      SentAddsUp(f, rows, tables[..n], size, u, p);
      OneSetAddsUp(f, rows, tables[n], size, u, p);
      WordsSum(f, Sent(rows, tables[..n], size), OneEach(rows, tables[n]), rows[u], size, p);
      assert TableWords(tables, |rows|, size, u, p)[..n] == TableWords(tables[..n], |rows|, size, u, p);
    }
  }

  lemma NoWords<E>(parity: nat, size: nat, p: nat)
    requires p < size
    ensures WordsFor<E>([], parity, size, p) == []
  {
  }

  lemma OneSetAddsUp<E(!new)>(f: Field<E>, rows: seq<nat>, blocks: seq<Block<E>>, size: nat, u: nat, p: nat)
    requires Laws(f) && NoRepeats(rows) && IsTable(blocks, |rows|, size) && u < |rows| && p < size
    ensures SizesOk(OneEach(rows, blocks), size)
    ensures Sum(f, WordsFor(OneEach(rows, blocks), rows[u], size, p)) == blocks[u][p]
  {
    var flags := seq(|rows|, _ => true);
    AllSetMessages(rows, blocks, flags);
    MessageWords(f, rows, blocks, flags, size, u, p);
  }

  lemma {:induction false} DueIsTotal<E(!new)>(c: Job<E>, sets: seq<seq<nat>>, u: nat, p: nat)
    requires Laws(c.f) && Shaped(c) && (forall i :: 0 <= i < |sets| ==> InRange(sets[i], |c.truth|)) && u < |c.rows| && p < c.size
    ensures Sum(c.f, DueWords(c, sets, u, p)) == TotalPartial(c.f, c.h, c.rows, sets, Column(c.truth, p))[u]
  {
    hide Partial, PartialBlocks;
    if sets != [] {
      var n := |sets| - 1;
      DueIsTotal(c, sets[..n], u, p);
      PartialByWord(c.f, c.h, c.rows, sets[n], c.truth, c.size, p);
      assert DueWords(c, sets, u, p)[..n] == DueWords(c, sets[..n], u, p);
      assert Column(Due(c, sets[n]), p)[u] == Due(c, sets[n])[u][p];
    }
  }

  /** What all clusters ought to send adds up to the parities. */
  lemma DueIsParity<E(!new)>(c: Job<E>, all: seq<nat>, sets: seq<seq<nat>>, u: nat, p: nat)
    requires RecalOk(c, all) && SameBlocks(Concat(sets), all) && u < |c.rows| && p < c.size
    ensures forall i :: 0 <= i < |sets| ==> InRange(sets[i], |c.truth|)
    ensures Sum(c.f, DueWords(c, sets, u, p)) == c.truth[c.rows[u]][p]
  {
    hide Concat, SameBlocks, SplitsSupport, Sum;
    var b := Column(c.truth, p);
    SplitAgain(c.f, c.h, c.rows, all, sets, |c.truth|);
    DueIsTotal(c, sets, u, p);
    assert Annihilates(c.f, c.h, c.rows, b);
    HelpersSpeakForLost(c.f, c.h, c.rows, c.rows, sets, b);
    IdentityKeeps(c.f, Pick(b, c.rows));
    assert Partial(c.f, c.h, c.rows, c.rows, b)[u] == Pick(b, c.rows)[u];
  }

  /** What the helpers of all the sets have sent. */
  ghost function Tables<E>(c: Job<E>, helper: Helper<E>, sets: seq<seq<nat>>): (r: seq<seq<Block<E>>>)
    requires SendsTables(c, helper, sets)
    ensures |r| == |sets| && forall i :: 0 <= i < |r| ==> r[i] == helper(sets[i]) && IsTable(r[i], |c.rows|, c.size)
  {
    seq(|sets|, i requires 0 <= i < |sets| => helper(sets[i]))
  }

  /** What has arrived so far: whole sets of partial blocks, and single blocks. */
  ghost predicate Arrived<E>(c: Job<E>, helper: Helper<E>, sets: seq<seq<nat>>, originals: seq<nat>, blocks: seq<Block<E>>,
                             partialIdxs: seq<nat>, partials: seq<Block<E>>)
  {
    && InRange(originals, |c.truth|) && blocks == Pick(c.truth, originals) && SendsTables(c, helper, sets)
    && partialIdxs == Parities(Sent(c.rows, Tables(c, helper, sets), c.size))
    && partials == Payloads(Sent(c.rows, Tables(c, helper, sets), c.size))
  }

  lemma SentMore<E>(rows: seq<nat>, tables: seq<seq<Block<E>>>, size: nat, blocks: seq<Block<E>>)
    requires (forall i :: 0 <= i < |tables| ==> IsTable(tables[i], |rows|, size)) && IsTable(blocks, |rows|, size)
    ensures Parities(Sent(rows, tables + [blocks], size)) == Parities(Sent(rows, tables, size)) + rows
    ensures Payloads(Sent(rows, tables + [blocks], size)) == Payloads(Sent(rows, tables, size)) + blocks
  {
    assert (tables + [blocks])[..|tables|] == tables;
  }

  lemma SetArrives<E>(c: Job<E>, helper: Helper<E>, sets: seq<seq<nat>>, originals: seq<nat>, blocks: seq<Block<E>>,
                      partialIdxs: seq<nat>, partials: seq<Block<E>>, one: seq<nat>)
    requires Arrived(c, helper, sets, originals, blocks, partialIdxs, partials)
    requires InRange(one, |c.truth|) && IsTable(helper(one), |c.rows|, c.size)
    ensures Arrived(c, helper, sets + [one], originals, blocks, partialIdxs + c.rows, partials + helper(one))
  {
    assert SendsTables(c, helper, sets + [one]);
    assert Tables(c, helper, sets + [one]) == Tables(c, helper, sets) + [helper(one)];
    SentMore(c.rows, Tables(c, helper, sets), c.size, helper(one));
  }

  lemma BlocksArrive<E>(c: Job<E>, helper: Helper<E>, sets: seq<seq<nat>>, originals: seq<nat>, blocks: seq<Block<E>>,
                        partialIdxs: seq<nat>, partials: seq<Block<E>>, idxs: seq<nat>, data: seq<Block<E>>)
    requires Arrived(c, helper, sets, originals, blocks, partialIdxs, partials)
    requires InRange(idxs, |c.truth|) && data == Pick(c.truth, idxs)
    ensures Arrived(c, helper, sets, originals + idxs, blocks + data, partialIdxs, partials)
  {
    hide Sent, Tables;
  }

  lemma NothingArrived<E>(c: Job<E>, helper: Helper<E>)
    ensures Arrived(c, helper, [], [], [], [], [])
  {
  }

  lemma StoredIsTruth<E>(stored: seq<Block<E>>, truth: seq<Block<E>>, all: seq<nat>, size: nat, idxs: seq<nat>)
    requires StoredOk(stored, truth, all, size) && forall i :: 0 <= i < |idxs| ==> idxs[i] in all
    ensures |stored| == |truth| && InRange(idxs, |truth|) && Pick(stored, idxs) == Pick(truth, idxs)
  {
  }

  lemma StoredRearranged<E>(stored: seq<Block<E>>, truth: seq<Block<E>>, a: seq<nat>, b: seq<nat>, size: nat)
    requires StoredOk(stored, truth, a, size) && SameBlocks(b, a)
    ensures StoredOk(stored, truth, b, size)
  {
    forall i | 0 <= i < |b|
      ensures b[i] < |truth| && stored[b[i]] == truth[b[i]]
    {
      AlsoIn(b, a, b[i]);
    }
  }

  lemma RecalFacts<E(!new)>(c: Job<E>, all: seq<nat>)
    requires RecalOk(c, all)
    ensures Laws(c.f) && Shaped(c) && SplitsSupport(c.f, c.h, c.rows, c.rows, [all], |c.truth|)
    ensures NoRepeats(c.rows)
  {
  }

  /** The helpers of the sets still to come will send whole tables too. */
  ghost predicate WillSend<E>(c: Job<E>, helper: Helper<E>, readers: seq<Reader>) {
    forall r :: 0 <= r < |readers| && readers[r].partial ==> IsTable(helper(readers[r].idxs), |c.rows|, c.size)
  }

  /** All readers: in whatever order they finish, everything has arrived at the end. */
  method ReadAll<E(0, !new)>(ghost c: Job<E>, rows: seq<nat>, helper: Helper<E>, readers0: seq<Reader>, stored: seq<Block<E>>,
                             ghost all: seq<nat>)
      returns (originals: seq<nat>, blocks: seq<Block<E>>, partialIdxs: seq<nat>, partials: seq<Block<E>>,
               ghost sets: seq<seq<nat>>)
    requires RecalOk(c, all) && c.rows == rows && StoredOk(stored, c.truth, all, c.size)
    requires Reading([], [], readers0, all) && WillSend(c, helper, readers0)
    ensures Arrived(c, helper, sets, originals, blocks, partialIdxs, partials)
    ensures Reading(sets, originals, [], all) && Permuted(sets, PartialSets(readers0))
  {
    hide Arrived, Reading, RecalOk, SplitsSupport, Permuted, PartialSets;
    RecalFacts(c, all);
    NothingArrived(c, helper);
    NoSets(readers0);
    var readers := readers0;
    originals, blocks, partialIdxs, partials, sets := [], [], [], [], [];
    while readers != []
      invariant Arrived(c, helper, sets, originals, blocks, partialIdxs, partials)
      invariant Reading(sets, originals, readers, all) && WillSend(c, helper, readers)
      invariant Permuted(sets + PartialSets(readers), PartialSets(readers0))
      decreases |readers|
    {
      var r :| 0 <= r < |readers|;
      var idxs := readers[r].idxs;
      ReadersOk(all, sets, originals, readers, r);
      StoredIsTruth(stored, c.truth, all, c.size, idxs);
      ReaderDone(sets, originals, readers, all, r);
      PartialSetOut(readers, r);
      SetMoves(sets, PartialSets(readers[..r]), if readers[r].partial then [idxs] else [], PartialSets(readers[r + 1..]),
               PartialSets(readers0));
      if readers[r].partial {
        SetArrives(c, helper, sets, originals, blocks, partialIdxs, partials, idxs);
        sets := sets + [idxs];
        partialIdxs, partials := partialIdxs + rows, partials + helper(idxs);
      } else {
        BlocksArrive(c, helper, sets, originals, blocks, partialIdxs, partials, idxs, Pick(stored, idxs));
        originals, blocks := originals + idxs, blocks + Pick(stored, idxs);
        assert sets + [] == sets;
      }
      readers := readers[..r] + readers[r + 1..];
    }
    AllSets(sets, PartialSets(readers0));
  }

  lemma NoSets(readers: seq<Reader>)
    ensures Permuted([] + PartialSets(readers), PartialSets(readers))
  {
    assert [] + PartialSets(readers) == PartialSets(readers);
  }

  lemma AllSets(sets: seq<seq<nat>>, all: seq<seq<nat>>)
    requires Permuted(sets + PartialSets([]), all)
    ensures Permuted(sets, all)
  {
    assert sets + PartialSets([]) == sets;
  }

  lemma AllArrived(sets: seq<seq<nat>>, originals: seq<nat>, all: seq<nat>)
    requires Reading(sets, originals, [], all)
    ensures SameBlocks(Concat(sets) + originals, all) && SameBlocks(Concat(sets + [originals]), all)
    ensures originals == [] ==> SameBlocks(Concat(sets), all)
    ensures sets == [] ==> SameBlocks(originals, all)
  {
    assert (Concat(sets) + originals) + Concat(Idxs([])) == Concat(sets) + originals;
    ConcatSnoc(sets, originals);
    assert originals == [] ==> Concat(sets) + originals == Concat(sets);
    assert sets == [] ==> Concat(sets) + originals == originals;
  }

  /** The program's addition over all the messages received. */
  lemma AdditionIsAll<E(!new)>(f: Field<E>, msgs: seq<Message<E>>, rows: seq<nat>, size: nat, coding: seq<Block<E>>)
    requires Laws(f) && SizesOk(msgs, size) && |coding| == |rows|
    requires forall i :: 0 <= i < |rows| ==>
               var mine := Selected(Payloads(msgs), Parities(msgs), rows[i], size);
               coding[i] == CodingBlock(f, Ones(f, |mine|), mine, size)
    ensures coding == AddedAll(f, msgs, rows, size)
  {
    forall i | 0 <= i < |rows|
      ensures coding[i] == AddedAll(f, msgs, rows, size)[i]
    {
      AdditionAddsUp(f, msgs, rows[i], size);
    }
  }

  /** Word p of parity u, from the helpers' sets and, last, the own cluster's. */
  lemma AddedWord<E(!new)>(c: Job<E>, helper: Helper<E>, all: seq<nat>, sets: seq<seq<nat>>, own: seq<nat>, u: nat, p: nat)
    requires RecalOk(c, all) && SameBlocks(Concat(sets + [own]), all) && SendsTables(c, helper, sets) && InRange(own, |c.truth|)
    requires u < |c.rows| && p < c.size
    ensures Sum(c.f, WordsFor(Sent(c.rows, Tables(c, helper, sets) + [Due(c, own)], c.size), c.rows[u], c.size, p))
            == c.f.add(c.truth[c.rows[u]][p], Deviation(c, helper, sets, u, p))
  {
    hide Concat, SameBlocks, Sent, WordsFor, Sum, Due, SplitsSupport;
    RecalFacts(c, all);
    var tables := Tables(c, helper, sets) + [Due(c, own)];
    SentAddsUp(c.f, c.rows, tables, c.size, u, p);
    DueIsParity(c, all, sets + [own], u, p);
    var sent, due, mine := SentWords(c, helper, sets, u, p), DueWords(c, sets, u, p), Due(c, own)[u][p];
    assert TableWords(tables, |c.rows|, c.size, u, p) == sent + [mine];
    assert DueWords(c, sets + [own], u, p) == due + [mine];
    Snoc(c.f, sent, mine);
    Snoc(c.f, due, mine);
    OffByDifference(c.f, Sum(c.f, sent), Sum(c.f, due), mine);
  }

  lemma OffByDifference<E(!new)>(f: Field<E>, s: E, d: E, m: E)
    requires Laws(f)
    ensures f.add(s, m) == f.add(f.add(d, m), f.add(s, d))
  {
    Interchange(f, d, m, d, s);
    LawsAt(f, s, d, d);
    LawsAt(f, d, d, d);
    LawsAt(f, m, s, s);
    LawsAt(f, f.add(m, s), s, s);
  }

  /** The same without blocks of the own cluster. */
  lemma AddedWordNoneOwn<E(!new)>(c: Job<E>, helper: Helper<E>, all: seq<nat>, sets: seq<seq<nat>>, u: nat, p: nat)
    requires RecalOk(c, all) && SameBlocks(Concat(sets), all) && SendsTables(c, helper, sets) && u < |c.rows| && p < c.size
    ensures Sum(c.f, WordsFor(Sent(c.rows, Tables(c, helper, sets), c.size), c.rows[u], c.size, p))
            == c.f.add(c.truth[c.rows[u]][p], Deviation(c, helper, sets, u, p))
  {
    hide Concat, SameBlocks, Sent, WordsFor, Sum, Due, SplitsSupport;
    RecalFacts(c, all);
    var tables := Tables(c, helper, sets);
    SentAddsUp(c.f, c.rows, tables, c.size, u, p);
    DueIsParity(c, all, sets, u, p);
    var sent, due := SentWords(c, helper, sets, u, p), DueWords(c, sets, u, p);
    assert TableWords(tables, |c.rows|, c.size, u, p) == sent;
    OffByDifference(c.f, Sum(c.f, sent), Sum(c.f, due), c.f.zero);
    LawsAt(c.f, Sum(c.f, sent), c.f.zero, c.f.zero);
    LawsAt(c.f, Sum(c.f, due), c.f.zero, c.f.zero);
  }

  /** The messages of the sets, with the own cluster's, add up to the outcome. */
  lemma AddedIsOutcome<E(!new)>(c: Job<E>, helper: Helper<E>, all: seq<nat>, sets: seq<seq<nat>>, own: seq<nat>,
                                big: seq<seq<nat>>, tables: seq<seq<Block<E>>>)
    requires RecalOk(c, all) && SendsTables(c, helper, sets) && InRange(own, |c.truth|)
    requires SendsTables(c, helper, big) && Permuted(sets, big)
    requires if own == [] then SameBlocks(Concat(sets), all) && tables == Tables(c, helper, sets)
             else SameBlocks(Concat(sets + [own]), all) && tables == Tables(c, helper, sets) + [Due(c, own)]
    ensures AddedAll(c.f, Sent(c.rows, tables, c.size), c.rows, c.size) == Outcome(c, helper, big)
  {
    hide Concat, SameBlocks, Sent, WordsFor, Sum, Due, SplitsSupport, Permuted, RecalOk, Deviation, SendsTables;
    RecalFacts(c, all);
    var added := AddedAll(c.f, Sent(c.rows, tables, c.size), c.rows, c.size);
    forall u, p | 0 <= u < |c.rows| && 0 <= p < c.size
      ensures added[u][p] == Outcome(c, helper, big)[u][p]
    {
      SentInAnyOrder(c, helper, sets, big, u, p);
      if own == [] {
        AddedWordNoneOwn(c, helper, all, sets, u, p);
      } else {
        AddedWord(c, helper, all, sets, own, u, p);
      }
    }
    forall u | 0 <= u < |c.rows|
      ensures added[u] == Outcome(c, helper, big)[u]
    {
    }
  }

  /** Without partial decoding the blocks are encoded in one place. */
  lemma EncodedIsOutcome<E(!new)>(c: Job<E>, helper: Helper<E>, all: seq<nat>, own: seq<nat>)
    requires RecalOk(c, all) && SameBlocks(own, all) && InRange(own, |c.truth|)
    ensures Due(c, own) == Outcome(c, helper, [])
  {
    hide Concat, SameBlocks, Due, SplitsSupport, RecalOk;
    RecalFacts(c, all);
    ConcatOne(own);
    RightHelpers(c, helper, []);
    forall u, p | 0 <= u < |c.rows| && 0 <= p < c.size
      ensures Due(c, own)[u][p] == c.truth[c.rows[u]][p]
    {
      DueIsParity(c, all, [own], u, p);
      assert DueWords(c, [own], u, p) == [] + [Due(c, own)[u][p]];
      Snoc(c.f, [], Due(c, own)[u][p]);
      LawsAt(c.f, Due(c, own)[u][p], c.f.zero, c.f.zero);
    }
    forall u | 0 <= u < |c.rows|
      ensures Due(c, own)[u] == c.truth[c.rows[u]]
    {
    }
  }

  lemma {:induction false} ReadersWillSend<E>(c: Job<E>, helper: Helper<E>, readers: seq<Reader>)
    requires SendsTables(c, helper, PartialSets(readers))
    ensures WillSend(c, helper, readers)
  {
    if readers != [] {
      var n := |readers| - 1;
      var before, sets := PartialSets(readers[..n]), PartialSets(readers);
      assert forall i :: 0 <= i < |before| ==> before[i] == sets[i];
      ReadersWillSend(c, helper, readers[..n]);
      if readers[n].partial {
        assert sets[|before|] == readers[n].idxs;
      }
    }
  }

  /** What is read and computed at the main proxy. */
  lemma ArrivedFacts<E>(c: Job<E>, helper: Helper<E>, sets: seq<seq<nat>>, originals: seq<nat>, blocks: seq<Block<E>>,
                        partialIdxs: seq<nat>, partials: seq<Block<E>>)
    requires Arrived(c, helper, sets, originals, blocks, partialIdxs, partials)
    ensures InRange(originals, |c.truth|) && blocks == Pick(c.truth, originals) && SendsTables(c, helper, sets)
    ensures partialIdxs == Parities(Sent(c.rows, Tables(c, helper, sets), c.size))
    ensures partials == Payloads(Sent(c.rows, Tables(c, helper, sets), c.size))
  {
  }

  lemma NoneSent(help: seq<seq<nat>>, parityNum: nat)
    ensures SentPartial(help, parityNum, false) == []
  {
    if help != [] {
      NoneSent(help[..|help| - 1], parityNum);
    }
  }

  lemma OnlyNone(sets: seq<seq<nat>>)
    requires Permuted(sets, [])
    ensures sets == []
  {
    assert |multiset(sets)| == 0;
  }

  /**
   Recalculates the parities `rows` of a stripe from the blocks of the main cluster and the help clusters.
   In whatever order everything arrives, the parities are the right ones, off by what the helpers that sent
   partial blocks were off.
   */
  method MainRecal<E(0, !new)>(f: Field<E>, n: nat, flat: seq<E>, rows: seq<nat>, own: seq<nat>, help: seq<seq<nat>>,
                               partialDecoding: bool, helper: Helper<E>, stored: seq<Block<E>>, size: nat, ghost c: Job<E>)
      returns (coding: array<Block<E>>)
    requires n * n <= |flat| && |c.truth| == n && c == Job(f, TableOf(flat, n, n), rows, c.truth, size)
    requires RecalOk(c, own + Concat(help)) && StoredOk(stored, c.truth, own + Concat(help), size)
    requires SendsTables(c, helper, SentPartial(help, |rows|, partialDecoding))
    ensures fresh(coding) && Shaped(c) && coding[..] == Outcome(c, helper, SentPartial(help, |rows|, partialDecoding))
  {
    hide RecalOk, Arrived, Reading, StoredOk, TableOf, Sent, SameBlocks, Parities, Payloads, Permuted, SentPartial, PartialSets,
         SplitsSupport, Due, Tables, Concat, SendsTables;
    ghost var all, big := own + Concat(help), SentPartial(help, |rows|, partialDecoding);
    RecalFacts(c, all);
    var readers := StartReaders(own, help, |rows|, partialDecoding);
    ReadingStarts(readers, all);
    ReadersWillSend(c, helper, readers);
    var originals, blocks, partialIdxs, partials;
    ghost var sets;
    originals, blocks, partialIdxs, partials, sets := ReadAll(c, rows, helper, readers, stored, all);
    ArrivedFacts(c, helper, sets, originals, blocks, partialIdxs, partials);
    AllArrived(sets, originals, all);
    coding := new Block<E>[|rows|](_ => []);
    if partialDecoding {
      ghost var tables := Tables(c, helper, sets);
      if |originals| > 0 {
        var mine := PartialParities(f, n, flat, rows, originals, blocks, size, c);
        SentMore(rows, tables, size, mine);
        tables := tables + [mine];
        partialIdxs, partials := partialIdxs + rows, partials + mine;
      }
      AddedIsOutcome(c, helper, all, sets, originals, big, tables);
      ghost var msgs := Sent(rows, tables, size);
      assert IsTable(partials, |partials|, size);
      PerformAddition(f, partials, coding, size, partialIdxs, rows);
      AdditionIsAll(f, msgs, rows, size, coding[..]);
    } else {
      NoneSent(help, |rows|);
      OnlyNone(sets);
      EncodePartialBlocksForParities(f, n, flat, blocks, coding, size, originals, rows, n);
      EncodedIsOutcome(c, helper, all, originals);
      assert coding[..] == Due(c, originals) by { DueIs(c, originals); }
    }
  }

  lemma DueIs<E>(c: Job<E>, idxs: seq<nat>)
    requires Shaped(c) && InRange(idxs, |c.truth|)
    ensures Due(c, idxs) == EncodeBlocks(c.f, SubMatrix(c.h, c.rows, idxs, |c.truth|), Pick(c.truth, idxs), c.size)
  {
  }

  lemma ReadingStarts(readers: seq<Reader>, all: seq<nat>)
    requires Concat(Idxs(readers)) == all
    ensures Reading([], [], readers, all)
  {
    assert (Concat([]) + []) + all == all;
  }
}

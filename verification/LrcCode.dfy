/**
 What the parity-check matrix is for: every stripe a locally repairable code encodes is annihilated by it,
 so lost blocks can be recovered from partial blocks, wherever the surviving blocks are.
 */
module LrcCode {
  import opened Listing
  import opened Fields
  import opened Sums
  import opened Matrices
  import opened RepairAlgebra
  import opened ErasureCode
  import opened BlockRepair
  import opened LrcShape
  import opened LrcMatrices
  import opened LrcParities
  import opened LrcFullMatrix

  /** One word of an encoded stripe: the data, the global parities, the local parities. */
  ghost function StripeWord<E>(f: Field<E>, c: Lrc, lib: seq<seq<E>>, data: seq<E>): (b: seq<E>)
    requires LrcOk(c) && IsTable(lib, c.g + 1, c.k) && |data| == c.k
    ensures |b| == BlockNum(c)
  {
    data + MatVec(f, EncodingTable(f, c, lib), data)
  }

  ghost function Globals<E>(f: Field<E>, c: Lrc, lib: seq<seq<E>>, data: seq<E>): (r: seq<E>)
    requires IsTable(lib, c.g + 1, c.k) && |data| == c.k
    ensures |r| == c.g && forall i :: 0 <= i < c.g ==> r[i] == Dot(f, GlobalRows(c, lib)[i], data)
  {
    MatVec(f, GlobalRows(c, lib), data)
  }

  ghost function Locals<E>(f: Field<E>, c: Lrc, lib: seq<seq<E>>, data: seq<E>): (r: seq<E>)
    requires LrcOk(c) && IsTable(lib, c.g + 1, c.k) && |data| == c.k
    ensures |r| == c.l
  {
    MatVec(f, MatMul(f, LocalRows(f, c, lib), DataAndGlobals(f, c, lib), c.k), data)
  }

  lemma StripeInParts<E>(f: Field<E>, c: Lrc, lib: seq<seq<E>>, data: seq<E>)
    requires LrcOk(c) && IsTable(lib, c.g + 1, c.k) && |data| == c.k
    ensures StripeWord(f, c, lib, data) == data + Globals(f, c, lib, data) + Locals(f, c, lib, data)
  {
  }

  /** A local parity is its group's combination of the data and the global parities as they are stored. */
  lemma LocalIsGroupSum<E(!new)>(f: Field<E>, c: Lrc, lib: seq<seq<E>>, data: seq<E>, i: nat)
    requires Laws(f) && LrcOk(c) && IsTable(lib, c.g + 1, c.k) && |data| == c.k && i < c.l
    ensures Dot(f, LocalRow(f, c, lib, i), data + Globals(f, c, lib, data)) == Locals(f, c, lib, data)[i]
  {
    var dg, row := DataAndGlobals(f, c, lib), LocalRow(f, c, lib, i);
    var x := MatVec(f, dg, data);
    LiftedData(f, c, lib, data);
    DotThrough(f, row, dg, data);
    assert MatMul(f, [row], dg, c.k)[0] == MatMul(f, LocalRows(f, c, lib), dg, c.k)[i];
  }

  lemma LiftedData<E(!new)>(f: Field<E>, c: Lrc, lib: seq<seq<E>>, data: seq<E>)
    requires Laws(f) && IsTable(lib, c.g + 1, c.k) && |data| == c.k
    ensures MatVec(f, DataAndGlobals(f, c, lib), data) == data + Globals(f, c, lib, data)
  {
    hide Dot, Identity, GlobalRows;
    var x := MatVec(f, DataAndGlobals(f, c, lib), data);
    forall i | 0 <= i < c.k + c.g
      ensures x[i] == (data + Globals(f, c, lib, data))[i]
    {
      if i < c.k {
        DotUnit(f, c.k, i, data);
      }
    }
  }

  // The parity rows of the matrix.

  /** A global row adds the parity the data should have to the one that is there. */
  lemma GlobalCheckSum<E(!new)>(f: Field<E>, c: Lrc, lib: seq<seq<E>>, data: seq<E>, coding: seq<E>, q: nat)
    requires Laws(f) && LrcOk(c) && IsTable(lib, c.g + 1, c.k) && |data| == c.k && |coding| == c.g + c.l && q < c.g
    ensures Dot(f, GlobalCheckRow(f, c, lib, q), data + coding) == f.add(GlobalWord(f, c, lib, data, q), coding[q])
  {
    var globals, locals := coding[..c.g], coding[c.g..];
    hide GlobalWord, Dot;
    assert data + coding == data + globals + locals;
    DotConcat(f, GlobalRows(c, lib)[q], data, UnitRow(f, c.g, q), globals);
    DotConcat(f, GlobalRows(c, lib)[q] + UnitRow(f, c.g, q), data + globals, Zeros(f, c.l), locals);
    DotUnit(f, c.g, q, globals);
    DotZeros(f, Zeros(f, c.l), locals);
    GlobalRowSums(f, c, lib, data, q);
    LawsAt(f, f.add(GlobalWord(f, c, lib, data, q), globals[q]), f.zero, f.zero);
  }

  lemma LocalCheckSum<E(!new)>(f: Field<E>, c: Lrc, lib: seq<seq<E>>, data: seq<E>, coding: seq<E>, i: nat)
    requires Laws(f) && LrcOk(c) && IsTable(lib, c.g + 1, c.k) && |data| == c.k && |coding| == c.g + c.l && i < c.l
    ensures Dot(f, LocalCheckRow(f, c, lib, i), data + coding)
            == f.add(LocalWord(f, c, lib, data, coding[..c.g], i), coding[c.g + i])
  {
    var globals, locals := coding[..c.g], coding[c.g..];
    hide LocalWord, LocalRow, Dot;
    assert data + coding == data + globals + locals;
    DotConcat(f, LocalRow(f, c, lib, i), data + globals, UnitRow(f, c.l, i), locals);
    DotUnit(f, c.l, i, locals);
    LocalRowSums(f, c, lib, data, globals, i);
  }

  /** Row a sees zero exactly when the parity it belongs to is the one the data should have. */
  ghost predicate ParityRight<E>(f: Field<E>, c: Lrc, lib: seq<seq<E>>, data: seq<E>, coding: seq<E>, a: nat)
    requires LrcOk(c) && IsTable(lib, c.g + 1, c.k) && |data| == c.k && |coding| == c.g + c.l && c.k <= a < BlockNum(c)
  {
    coding[a - c.k] == if a < c.k + c.g then GlobalWord(f, c, lib, data, a - c.k)
                       else LocalWord(f, c, lib, data, coding[..c.g], a - c.k - c.g)
  }

  lemma RowSeesParity<E(!new)>(f: Field<E>, c: Lrc, lib: seq<seq<E>>, data: seq<E>, coding: seq<E>, a: nat)
    requires Laws(f) && LrcOk(c) && IsTable(lib, c.g + 1, c.k) && |data| == c.k && |coding| == c.g + c.l
    requires c.k <= a < BlockNum(c)
    ensures Dot(f, CheckTable(f, c, lib)[a], data + coding) == f.zero <==> ParityRight(f, c, lib, data, coding, a)
  {
    hide GlobalCheckRow, LocalCheckRow, GlobalWord, LocalWord, Dot;
    if a < c.k + c.g {
      GlobalCheckSum(f, c, lib, data, coding, a - c.k);
      ZeroSumWhen(f, GlobalWord(f, c, lib, data, a - c.k), coding[a - c.k]);
    } else {
      LocalCheckSum(f, c, lib, data, coding, a - c.k - c.g);
      ZeroSumWhen(f, LocalWord(f, c, lib, data, coding[..c.g], a - c.k - c.g), coding[a - c.k]);
    }
  }

  lemma AllParitiesRight<E>(f: Field<E>, c: Lrc, lib: seq<seq<E>>, data: seq<E>, coding: seq<E>)
    requires LrcOk(c) && IsTable(lib, c.g + 1, c.k) && |data| == c.k && |coding| == c.g + c.l
    ensures WordsEncoded(f, c, lib, data, coding)
            <==> forall a :: c.k <= a < BlockNum(c) ==> ParityRight(f, c, lib, data, coding, a)
  {
    hide GlobalWord, LocalWord;
    if forall a :: c.k <= a < BlockNum(c) ==> ParityRight(f, c, lib, data, coding, a) {
      forall q | 0 <= q < c.g
        ensures coding[q] == GlobalWord(f, c, lib, data, q)
      {
        assert ParityRight(f, c, lib, data, coding, c.k + q);
      }
      forall i | 0 <= i < c.l
        ensures coding[c.g + i] == LocalWord(f, c, lib, data, coding[..c.g], i)
      {
        assert ParityRight(f, c, lib, data, coding, c.k + c.g + i);
      }
    } else {
      var a :| c.k <= a < BlockNum(c) && !ParityRight(f, c, lib, data, coding, a);
      assert a >= c.k + c.g ==> coding[a - c.k] == coding[c.g + (a - c.k - c.g)];
    }
  }

  /** The parity rows annihilate a word exactly when it is encoded. */
  lemma CheckedWhenEncoded<E(!new)>(f: Field<E>, c: Lrc, lib: seq<seq<E>>, data: seq<E>, coding: seq<E>)
    requires Laws(f) && LrcOk(c) && IsTable(lib, c.g + 1, c.k) && |data| == c.k && |coding| == c.g + c.l
    ensures (forall a :: c.k <= a < BlockNum(c) ==> Dot(f, CheckTable(f, c, lib)[a], data + coding) == f.zero)
            <==> WordsEncoded(f, c, lib, data, coding)
  {
    hide ParityRight, WordsEncoded, Dot;
    forall a | c.k <= a < BlockNum(c)
      ensures Dot(f, CheckTable(f, c, lib)[a], data + coding) == f.zero <==> ParityRight(f, c, lib, data, coding, a)
    {
      RowSeesParity(f, c, lib, data, coding, a);
    }
    AllParitiesRight(f, c, lib, data, coding);
  }

  /** The parities of a stripe word are the written-out sums. */
  lemma StripeWordsEncoded<E(!new)>(f: Field<E>, c: Lrc, lib: seq<seq<E>>, data: seq<E>)
    requires Laws(f) && LrcOk(c) && IsTable(lib, c.g + 1, c.k) && |data| == c.k
    ensures WordsEncoded(f, c, lib, data, Globals(f, c, lib, data) + Locals(f, c, lib, data))
  {
    hide Locals, LocalRow, LocalWord, GlobalWord, GlobalRows, Dot;
    var globals := Globals(f, c, lib, data);
    var coding := globals + Locals(f, c, lib, data);
    assert coding[..c.g] == globals;
    forall q | 0 <= q < c.g
      ensures coding[q] == GlobalWord(f, c, lib, data, q)
    {
      GlobalRowSums(f, c, lib, data, q);
    }
    forall i | 0 <= i < c.l
      ensures coding[c.g + i] == LocalWord(f, c, lib, data, globals, i)
    {
      LocalIsGroupSum(f, c, lib, data, i);
      LocalRowSums(f, c, lib, data, globals, i);
    }
  }

  /** Every parity row of the matrix annihilates every encoded stripe. */
  lemma EncodedWordIsChecked<E(!new)>(f: Field<E>, c: Lrc, lib: seq<seq<E>>, data: seq<E>, rows: seq<nat>)
    requires Laws(f) && LrcOk(c) && IsTable(lib, c.g + 1, c.k) && |data| == c.k
    requires forall u :: 0 <= u < |rows| ==> c.k <= rows[u] < BlockNum(c)
    ensures Annihilates(f, CheckTable(f, c, lib), rows, StripeWord(f, c, lib, data))
  {
    hide CheckRow, Dot, Locals, Globals, WordsEncoded;
    var coding := Globals(f, c, lib, data) + Locals(f, c, lib, data);
    StripeInParts(f, c, lib, data);
    assert StripeWord(f, c, lib, data) == data + coding;
    StripeWordsEncoded(f, c, lib, data);
    CheckedWhenEncoded(f, c, lib, data, coding);
  }

  /** The blocks of an encoded stripe. */
  ghost function Stripe<E>(f: Field<E>, c: Lrc, lib: seq<seq<E>>, data: seq<Block<E>>, size: nat): (s: seq<Block<E>>)
    requires LrcOk(c) && IsTable(lib, c.g + 1, c.k) && IsTable(data, c.k, size)
    ensures IsTable(s, BlockNum(c), size)
  {
    data + EncodeBlocks(f, EncodingTable(f, c, lib), data, size)
  }

  lemma StripeByWord<E>(f: Field<E>, c: Lrc, lib: seq<seq<E>>, data: seq<Block<E>>, size: nat, p: nat)
    requires LrcOk(c) && IsTable(lib, c.g + 1, c.k) && IsTable(data, c.k, size) && p < size
    ensures Column(Stripe(f, c, lib, data, size), p) == StripeWord(f, c, lib, Column(data, p))
  {
    EncodeByWord(f, EncodingTable(f, c, lib), data, size, p);
  }

  lemma EncodedStripeIsChecked<E(!new)>(f: Field<E>, c: Lrc, lib: seq<seq<E>>, data: seq<Block<E>>, size: nat, rows: seq<nat>)
    requires Laws(f) && LrcOk(c) && IsTable(lib, c.g + 1, c.k) && IsTable(data, c.k, size)
    requires forall u :: 0 <= u < |rows| ==> c.k <= rows[u] < BlockNum(c)
    ensures InRange(rows, BlockNum(c)) && StripeOk(f, CheckTable(f, c, lib), rows, Stripe(f, c, lib, data, size), size)
  {
    forall p | 0 <= p < size
      ensures Annihilates(f, CheckTable(f, c, lib), rows, Column(Stripe(f, c, lib, data, size), p))
    {
      StripeByWord(f, c, lib, data, size, p);
      EncodedWordIsChecked(f, c, lib, Column(data, p), rows);
    }
  }

  lemma StripeBlocksEncoded<E(!new)>(f: Field<E>, c: Lrc, lib: seq<seq<E>>, data: seq<Block<E>>, coding: seq<Block<E>>, size: nat)
    requires Laws(f) && LrcOk(c) && IsTable(lib, c.g + 1, c.k) && IsTable(data, c.k, size)
    requires data + coding == Stripe(f, c, lib, data, size)
    ensures IsTable(coding, c.g + c.l, size) && BlocksEncoded(f, c, lib, data, coding, size)
  {
    hide Stripe, StripeWord, Globals, Locals, WordsEncoded;
    CodingIsTable(f, c, lib, data, coding, size);
    forall p | 0 <= p < size
      ensures WordsEncoded(f, c, lib, Column(data, p), Column(coding, p))
    {
      var word := Column(data, p);
      StripeByWord(f, c, lib, data, size, p);
      StripeInParts(f, c, lib, word);
      StripeWordsEncoded(f, c, lib, word);
      assert Column(data + coding, p) == word + Column(coding, p);
      SameTail(word, Column(coding, p), Globals(f, c, lib, word) + Locals(f, c, lib, word),
               word + Globals(f, c, lib, word) + Locals(f, c, lib, word));
    }
  }

  lemma CodingIsTable<E>(f: Field<E>, c: Lrc, lib: seq<seq<E>>, data: seq<Block<E>>, coding: seq<Block<E>>, size: nat)
    requires LrcOk(c) && IsTable(lib, c.g + 1, c.k) && IsTable(data, c.k, size)
    requires data + coding == Stripe(f, c, lib, data, size)
    ensures IsTable(coding, c.g + c.l, size)
  {
    hide Stripe;
    forall i | 0 <= i < |coding|
      ensures |coding[i]| == size
    {
      assert coding[i] == (data + coding)[|data| + i];
    }
  }

  lemma SameTail<X>(head: seq<X>, a: seq<X>, b: seq<X>, all: seq<X>)
    requires all == head + a && all == head + b
    ensures a == b
  {
    assert a == all[|head|..] == b;
  }

  /** Encodes a stripe: the coding blocks are the parities of the data blocks, as written out in LrcParities. */
  method Encode<E(0, !new)>(f: Field<E>, c: Lrc, lib: seq<seq<E>>, data: seq<Block<E>>, coding: array<Block<E>>, size: nat)
    requires Laws(f) && LrcOk(c) && IsTable(lib, c.g + 1, c.k) && IsTable(data, c.k, size) && coding.Length == c.g + c.l
    modifies coding
    ensures data + coding[..] == Stripe(f, c, lib, data, size)
    ensures IsTable(coding[..], c.g + c.l, size) && BlocksEncoded(f, c, lib, data, coding[..], size)
  {
    hide BlocksEncoded;
    var matrix := MakeEncodingMatrix(f, c, lib);
    MatrixEncode(f, c.k, c.g + c.l, matrix[..], data, coding, size);
    StripeBlocksEncoded(f, c, lib, data, coding[..], size);
  }

  // What a cluster need not send.

  /**
   A cluster's flags: a partial block is sent only when one of the cluster's blocks is the parity itself or
   one it is computed from.
   */
  method PartialFlags(c: Lrc, dataIdxs: seq<nat>, parityIdxs: seq<nat>) returns (flags: seq<bool>)
    requires LrcOk(c) && InRange(dataIdxs, BlockNum(c))
    requires forall i :: 0 <= i < |parityIdxs| ==> c.k <= parityIdxs[i] < BlockNum(c)
    ensures |flags| == |parityIdxs|
    ensures forall i :: 0 <= i < |parityIdxs| ==> (flags[i] <==> exists j :: 0 <= j < |dataIdxs| && Feeds(c, dataIdxs[j], parityIdxs[i]))
  {
    flags := [];
    for i := 0 to |parityIdxs|
      invariant |flags| == i
      invariant forall a :: 0 <= a < i ==> (flags[a] <==> exists j :: 0 <= j < |dataIdxs| && Feeds(c, dataIdxs[j], parityIdxs[a]))
    {
      var flag := false;
      var j := 0;
      while j < |dataIdxs| && !flag
        invariant 0 <= j <= |dataIdxs|
        invariant flag <==> exists b :: 0 <= b < j && Feeds(c, dataIdxs[b], parityIdxs[i])
      {
        flag := Feeds(c, dataIdxs[j], parityIdxs[i]);
        j := j + 1;
      }
      flags := flags + [flag];
    }
  }

  predicate Feeds(c: Lrc, idx: nat, parity: nat)
    requires LrcOk(c) && idx < BlockNum(c) && c.k <= parity < BlockNum(c)
  {
    idx == parity || (if parity < c.k + c.g then idx < c.k else Bid2Gid(c, idx) == Bid2Gid(c, parity))
  }

  /** A block that does not feed a parity has coefficient zero in its row. */
  lemma OnlyFeedersCount<E>(f: Field<E>, c: Lrc, lib: seq<seq<E>>, idx: nat, parity: nat)
    requires LrcOk(c) && !c.kind.OptimalCauchy? && IsTable(lib, c.g + 1, c.k)
    requires idx < BlockNum(c) && c.k <= parity < BlockNum(c) && !Feeds(c, idx, parity)
    ensures CheckTable(f, c, lib)[parity][idx] == f.zero
  {
    assert CheckTable(f, c, lib)[parity] == CheckRow(f, c, lib, parity);
    if parity >= c.k + c.g && idx < c.k + c.g {
      GroupIsBid2Gid(c, parity - c.k - c.g, idx);
    }
  }

  ghost predicate SomeFeeds(c: Lrc, dataIdxs: seq<nat>, parity: nat)
    requires LrcOk(c) && InRange(dataIdxs, BlockNum(c)) && c.k <= parity < BlockNum(c)
  {
    exists j :: 0 <= j < |dataIdxs| && Feeds(c, dataIdxs[j], parity)
  }

  /** The flags every cluster computes for itself. */
  ghost predicate FlagsAsComputed(c: Lrc, rows: seq<nat>, clusters: seq<seq<nat>>, flags: seq<seq<bool>>)
    requires LrcOk(c) && forall u :: 0 <= u < |rows| ==> c.k <= rows[u] < BlockNum(c)
    requires forall i :: 0 <= i < |clusters| ==> InRange(clusters[i], BlockNum(c))
  {
    && IsTable(flags, |clusters|, |rows|)
    && forall i, u :: 0 <= i < |clusters| && 0 <= u < |rows| ==> (flags[i][u] <==> SomeFeeds(c, clusters[i], rows[u]))
  }

  /** A partial block that no block of the cluster feeds is zero. */
  lemma UnfedIsZero<E(!new)>(f: Field<E>, c: Lrc, lib: seq<seq<E>>, rows: seq<nat>, cols: seq<nat>, stripe: seq<Block<E>>,
                             size: nat, u: nat)
    requires Laws(f) && LrcOk(c) && !c.kind.OptimalCauchy? && IsTable(lib, c.g + 1, c.k)
    requires (forall u :: 0 <= u < |rows| ==> c.k <= rows[u] < BlockNum(c)) && InRange(rows, BlockNum(c))
    requires InRange(cols, BlockNum(c)) && IsTable(stripe, BlockNum(c), size) && u < |rows|
    requires !SomeFeeds(c, cols, rows[u])
    ensures PartialBlocks(f, CheckTable(f, c, lib), rows, cols, stripe, size)[u] == Zeros(f, size)
  {
    var h := CheckTable(f, c, lib);
    var block := PartialBlocks(f, h, rows, cols, stripe, size)[u];
    var row := Pick(h[rows[u]], cols);
    forall j | 0 <= j < |cols|
      ensures row[j] == f.zero
    {
      assert !Feeds(c, cols[j], rows[u]);
      OnlyFeedersCount(f, c, lib, cols[j], rows[u]);
    }
    forall p | 0 <= p < size
      ensures block[p] == f.zero
    {
      DotZeros(f, row, Column(Pick(stripe, cols), p));
    }
  }

  /**
   Repair of a locally repairable code: whatever the data, wherever the surviving blocks are, in whatever
   order the partial blocks arrive, and though clusters hold back the partial blocks they flag as empty,
   adding up and decoding gives exactly the lost blocks.
   */
  lemma LostBlocksComeBack<E(!new)>(f: Field<E>, c: Lrc, lib: seq<seq<E>>, data: seq<Block<E>>, size: nat, rows: seq<nat>,
                                    lost: seq<nat>, clusters: seq<seq<nat>>, flags: seq<seq<bool>>,
                                    arrived: seq<Message<E>>, inv: seq<seq<E>>)
    requires Laws(f) && LrcOk(c) && !c.kind.OptimalCauchy? && IsTable(lib, c.g + 1, c.k) && IsTable(data, c.k, size)
    requires NoRepeats(rows) && (forall u :: 0 <= u < |rows| ==> c.k <= rows[u] < BlockNum(c)) && InRange(rows, BlockNum(c))
    requires InRange(lost, BlockNum(c)) && forall i :: 0 <= i < |clusters| ==> InRange(clusters[i], BlockNum(c))
    requires SplitsSupport(f, CheckTable(f, c, lib), rows, lost, clusters, BlockNum(c))
    requires FlagsAsComputed(c, rows, clusters, flags)
    requires SizesOk(arrived, size)
    requires multiset(arrived)
             == multiset(AllMessages(f, CheckTable(f, c, lib), rows, clusters, Stripe(f, c, lib, data, size), size, flags))
    requires IsLeftInverse(f, inv, SubMatrix(CheckTable(f, c, lib), rows, lost, BlockNum(c)), |lost|)
    ensures EncodeBlocks(f, inv, AddedAll(f, arrived, rows, size), size) == Pick(Stripe(f, c, lib, data, size), lost)
  {
    var h, stripe := CheckTable(f, c, lib), Stripe(f, c, lib, data, size);
    hide CheckTable, Stripe, EncodingTable, PartialBlocks, AllMessages, AddedAll;
    EncodedStripeIsChecked(f, c, lib, data, size, rows);
    forall i, u | 0 <= i < |clusters| && 0 <= u < |rows| && !flags[i][u]
      ensures PartialBlocks(f, h, rows, clusters[i], stripe, size)[u] == Zeros(f, size)
    {
      UnfedIsZero(f, c, lib, rows, clusters[i], stripe, size, u);
    }
    RepairRestoresBlocks(f, h, rows, lost, clusters, stripe, size, flags, arrived, inv);
  }
}

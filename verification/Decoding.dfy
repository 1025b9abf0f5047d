/**
 Decoding with as many parities as lost blocks, and with more. The program stores the inverse one entry per
 lost block to a row, but reads it with one entry per parity to a row.
 */
module Decoding {
  import opened Listing
  import opened Fields
  import opened Sums
  import opened Matrices
  import opened RowMajor
  import opened RepairAlgebra
  import opened ErasureCode
  import opened BlockRepair

  ghost predicate IsInverse<E>(f: Field<E>, inv: seq<seq<E>>, m: seq<seq<E>>, n: nat) {
    IsTable(inv, n, n) && IsTable(m, n, n) && MatMul(f, inv, m, n) == Identity(f, n) && MatMul(f, m, inv, n) == Identity(f, n)
  }

  /** The lost blocks' columns of all parities' equations, and the inverse of the first ones. */
  ghost predicate Decodable<E>(f: Field<E>, m: seq<seq<E>>, inv: seq<seq<E>>, n: nat) {
    IsTable(m, |m|, n) && n <= |m| && IsInverse(f, inv, m[..n], n)
  }

  /** Read with the width it was stored with, the inverse is the inverse. */
  lemma SameWidth<E>(f: Field<E>, inv: seq<seq<E>>, n: nat)
    requires IsTable(inv, n, n)
    ensures Reread(f, inv, n, n) == inv
  {
    hide RowOf, ColOf, Pos;
    forall i | 0 <= i < n
      ensures Reread(f, inv, n, n)[i] == inv[i]
    {
      forall j | 0 <= j < n
        ensures Reread(f, inv, n, n)[i][j] == inv[i][j]
      {
        RowColOfPos(i, j, n);
      }
    }
  }

  /** A single lost block: the row read is the one entry and zeros. */
  lemma SingleEntry<E>(f: Field<E>, inv: seq<seq<E>>, wide: nat)
    requires IsTable(inv, 1, 1) && wide >= 1
    ensures Reread(f, inv, 1, wide) == [inv[0] + Zeros(f, wide - 1)]
  {
    assert forall j :: 0 <= j < wide ==> Pos(0, j, wide) == j && RowOf(j, 1) == j && ColOf(j, 1) == 0;
    assert Reread(f, inv, 1, wide)[0] == inv[0] + Zeros(f, wide - 1);
  }

  lemma SingleDecodes<E(!new)>(f: Field<E>, m: seq<seq<E>>, inv: seq<seq<E>>)
    requires Laws(f) && Decodable(f, m, inv, 1)
    ensures IsLeftInverse(f, Reread(f, inv, 1, |m|), m, 1)
  {
    var t := Reread(f, inv, 1, |m|);
    SingleEntry(f, inv, |m|);
    var first, rest := Column(m[..1], 0), Column(m[1..], 0);
    assert Column(m, 0) == first + rest;
    DotConcat(f, inv[0], first, Zeros(f, |m| - 1), rest);
    DotZeros(f, Zeros(f, |m| - 1), rest);
    LawsAt(f, Dot(f, inv[0], first), f.zero, f.zero);
    assert MatMul(f, inv, m[..1], 1)[0][0] == UnitRow(f, 1, 0)[0];
    assert MatMul(f, t, m, 1)[0] == UnitRow(f, 1, 0);
  }

  /** With more parities than lost blocks, and two lost blocks or more, the last row read has one entry at most. */
  lemma LastRow<E>(f: Field<E>, inv: seq<seq<E>>, n: nat, wide: nat) returns (c: E)
    requires IsTable(inv, n, n) && 2 <= n < wide
    ensures Reread(f, inv, n, wide)[n - 1] == [c] + Zeros(f, wide - 1) && (c == inv[n - 1][n - 1] || c == f.zero)
  {
    hide RowOf, ColOf, Reread;
    c := Reread(f, inv, n, wide)[n - 1][0];
    var row, want := Reread(f, inv, n, wide)[n - 1], [c] + Zeros(f, wide - 1);
    LastEntry(f, inv, n, wide, 0);
    forall j | 0 <= j < wide
      ensures row[j] == want[j]
    {
      LastEntry(f, inv, n, wide, j);
    }
  }

  lemma LastEntry<E>(f: Field<E>, inv: seq<seq<E>>, n: nat, wide: nat, j: nat)
    requires IsTable(inv, n, n) && 2 <= n < wide && j < wide
    ensures var e := Reread(f, inv, n, wide)[n - 1][j]; e == f.zero || (j == 0 && e == inv[n - 1][n - 1])
  {
    hide RowOf, ColOf;
    var t := Pos(n - 1, j, wide);
    LastRowStarts(n, wide, j);
    PosOfRowCol(t, n);
    if RowOf(t, n) < n {
      PosBound(RowOf(t, n), ColOf(t, n), n, n);
      RowColOfPos(n - 1, n - 1, n);
    }
  }

  lemma LastRowStarts(n: nat, wide: nat, j: nat)
    requires 2 <= n < wide
    ensures Pos(n - 1, j, wide) >= n * n - 1 + j && Pos(n - 1, n - 1, n) == n * n - 1
  {
    assert (n - 1) * wide == (n - 1) * (n + 1) + (n - 1) * (wide - n - 1);
    assert (n - 1) * (wide - n - 1) >= 0;
  }

  lemma ZeroTimes<E(!new)>(f: Field<E>, a: E)
    requires Laws(f)
    ensures f.mul(f.zero, a) == f.zero && f.mul(a, f.zero) == f.zero
  {
    LawsAt(f, a, a, a);
    LawsAt(f, f.zero, a, a);
  }

  lemma DotOne<E(!new)>(f: Field<E>, c: E, n: nat, col: seq<E>)
    requires Laws(f) && 1 <= |col| == n
    ensures Dot(f, [c] + Zeros(f, n - 1), col) == f.mul(c, col[0])
  {
    assert col == [col[0]] + col[1..];
    DotConcat(f, [c], [col[0]], Zeros(f, n - 1), col[1..]);
    DotZeros(f, Zeros(f, n - 1), col[1..]);
    Snoc(f, [], f.mul(c, col[0]));
    assert MulVec(f, [c], [col[0]]) == [] + [f.mul(c, col[0])];
    LawsAt(f, f.mul(c, col[0]), f.zero, f.zero);
  }

  lemma DotScale<E(!new)>(f: Field<E>, c: E, u: seq<E>, v: seq<E>)
    requires Laws(f) && |u| == |v|
    ensures Dot(f, Scale(f, c, u), v) == f.mul(c, Dot(f, u, v))
  {
    forall i | 0 <= i < |u|
      ensures MulVec(f, Scale(f, c, u), v)[i] == Scale(f, c, MulVec(f, u, v))[i]
    {
      LawsAt(f, c, u[i], v[i]);
    }
    assert MulVec(f, Scale(f, c, u), v) == Scale(f, c, MulVec(f, u, v));
    SumScale(f, c, MulVec(f, u, v));
  }

  /** Such a row cannot be the last row of an inverse. */
  lemma OneEntryFails<E(!new)>(f: Field<E>, m: seq<seq<E>>, inv: seq<seq<E>>, n: nat)
    requires Laws(f) && f.one != f.zero && Decodable(f, m, inv, n) && 2 <= n < |m|
    ensures !IsLeftInverse(f, Reread(f, inv, n, |m|), m, n)
  {
    hide Reread, Dot, Scale;
    var t := Reread(f, inv, n, |m|);
    var c := LastRow(f, inv, n, |m|);
    if IsLeftInverse(f, t, m, n) {
      FirstRowScaled(f, t, m, n, c);
      CornerIsZero(f, m, inv, n, c);
      NotScaledByZero(f, m[0], n - 1);
      assert false;
    }
  }

  lemma CornerIsZero<E(!new)>(f: Field<E>, m: seq<seq<E>>, inv: seq<seq<E>>, n: nat, c: E)
    requires Laws(f) && Decodable(f, m, inv, n) && 2 <= n < |m| && Scale(f, c, m[0]) == UnitRow(f, n, n - 1)
    ensures inv[n - 1][n - 1] == f.zero
  {
    hide Dot;
    var col := Column(inv, n - 1);
    DotScale(f, c, m[0], col);
    DotUnit(f, n, n - 1, col);
    assert MatMul(f, m[..n], inv, n)[0][n - 1] == UnitRow(f, n, 0)[n - 1];
    ZeroTimes(f, c);
  }

  lemma NotScaledByZero<E(!new)>(f: Field<E>, v: seq<E>, i: nat)
    requires Laws(f) && f.one != f.zero && i < |v|
    ensures Scale(f, f.zero, v) != UnitRow(f, |v|, i)
  {
    ZeroTimes(f, v[i]);
    assert Scale(f, f.zero, v)[i] != UnitRow(f, |v|, i)[i];
  }

  lemma FirstRowScaled<E(!new)>(f: Field<E>, t: seq<seq<E>>, m: seq<seq<E>>, n: nat, c: E)
    requires Laws(f) && 1 <= n <= |m| && IsTable(t, n, |m|) && IsLeftInverse(f, t, m, n)
    requires t[n - 1] == [c] + Zeros(f, |m| - 1)
    ensures Scale(f, c, m[0]) == UnitRow(f, n, n - 1)
  {
    hide Dot, Zeros;
    forall j | 0 <= j < n
      ensures Scale(f, c, m[0])[j] == UnitRow(f, n, n - 1)[j]
    {
      DotOne(f, c, |m|, Column(m, j));
      assert MatMul(f, t, m, n)[n - 1][j] == Identity(f, n)[n - 1][j];
    }
  }

  /**
   What is read undoes the lost blocks' columns exactly when there are as many parities as lost blocks, or at
   most one lost block.
   */
  lemma UndoesWhen<E(!new)>(f: Field<E>, m: seq<seq<E>>, inv: seq<seq<E>>, n: nat)
    requires Laws(f) && f.one != f.zero && Decodable(f, m, inv, n)
    ensures IsLeftInverse(f, Reread(f, inv, n, |m|), m, n) <==> |m| == n || n <= 1
  {
    if |m| == n {
      assert m[..n] == m;
      SameWidth(f, inv, n);
    } else if n == 0 {
      assert MatMul(f, Reread(f, inv, 0, |m|), m, 0) == Identity(f, 0);
    } else if n == 1 {
      SingleDecodes(f, m, inv);
    } else {
      OneEntryFails(f, m, inv, n);
    }
  }

  // Stripes.

  /** The equations used belong to parities that stand alone in them, and none of these is lost. */
  ghost predicate FreeRows<E>(f: Field<E>, h: seq<seq<E>>, rows: seq<nat>, lost: seq<nat>, n: nat) {
    && IsTable(h, n, n) && InRange(rows, n) && InRange(lost, n) && NoRepeats(rows) && NoRepeats(lost)
    && SubMatrix(h, rows, rows, n) == Identity(f, |rows|)
    && forall i :: 0 <= i < |lost| ==> lost[i] !in rows
  }

  /** Decoding gives the lost blocks of every stripe that satisfies the equations. */
  ghost predicate AlwaysRestores<E(!new)>(f: Field<E>, h: seq<seq<E>>, rows: seq<nat>, lost: seq<nat>, t: seq<seq<E>>, n: nat,
                                          size: nat)
    requires IsTable(h, n, n) && InRange(rows, n) && InRange(lost, n) && IsTable(t, |lost|, |rows|)
  {
    forall stripe: seq<Block<E>> :: IsTable(stripe, n, size) && StripeOk(f, h, rows, stripe, size) ==>
      EncodeBlocks(f, t, PartialBlocks(f, h, rows, lost, stripe, size), size) == Pick(stripe, lost)
  }

  /** What the receiver adds up is what the lost blocks would contribute. */
  lemma ReceivedIsLostPart<E(!new)>(f: Field<E>, h: seq<seq<E>>, rows: seq<nat>, lost: seq<nat>, clusters: seq<seq<nat>>,
                                    stripe: seq<Block<E>>, size: nat, flags: seq<seq<bool>>, arrived: seq<Message<E>>)
    requires Laws(f) && IsTable(stripe, |stripe|, size) && IsTable(h, |h|, |stripe|)
    requires InRange(rows, |h|) && NoRepeats(rows) && StripeOk(f, h, rows, stripe, size)
    requires SplitsSupport(f, h, rows, lost, clusters, |stripe|) && InRange(lost, |stripe|)
    requires forall c :: 0 <= c < |clusters| ==> InRange(clusters[c], |stripe|)
    requires IsTable(flags, |clusters|, |rows|) && Delivered(arrived, f, h, rows, clusters, stripe, size, flags)
    ensures AddedAll(f, arrived, rows, size) == PartialBlocks(f, h, rows, lost, stripe, size)
  {
    hide SplitsSupport, Partial, TotalPartial, AddedAll, PartialBlocks;
    var sums, part := AddedAll(f, arrived, rows, size), PartialBlocks(f, h, rows, lost, stripe, size);
    forall u, p | 0 <= u < |rows| && 0 <= p < size
      ensures sums[u][p] == part[u][p]
    {
      ReceivedIsTotal(f, h, rows, clusters, stripe, size, flags, arrived, p);
      HelpersSpeakForLost(f, h, rows, lost, clusters, Column(stripe, p));
      PartialByWord(f, h, rows, lost, stripe, size, p);
      assert Column(sums, p)[u] == Column(part, p)[u];
    }
    forall u | 0 <= u < |rows|
      ensures sums[u] == part[u]
    {
    }
  }

  lemma LostPartDecoded<E(!new)>(f: Field<E>, h: seq<seq<E>>, rows: seq<nat>, lost: seq<nat>, t: seq<seq<E>>,
                                 stripe: seq<Block<E>>, size: nat, p: nat)
    requires Laws(f) && IsTable(stripe, |stripe|, size) && IsTable(h, |h|, |stripe|) && InRange(rows, |h|) && InRange(lost, |stripe|)
    requires IsLeftInverse(f, t, SubMatrix(h, rows, lost, |stripe|), |lost|) && p < size
    ensures Column(EncodeBlocks(f, t, PartialBlocks(f, h, rows, lost, stripe, size), size), p) == Pick(Column(stripe, p), lost)
  {
    hide SubMatrix, PartialBlocks, EncodeBlocks, Dot;
    var b := Column(stripe, p);
    PartialByWord(f, h, rows, lost, stripe, size, p);
    EncodeByWord(f, t, PartialBlocks(f, h, rows, lost, stripe, size), size, p);
    MatVecThrough(f, t, SubMatrix(h, rows, lost, |stripe|), Pick(b, lost));
    IdentityKeeps(f, Pick(b, lost));
  }

  lemma LeftInverseRestores<E(!new)>(f: Field<E>, h: seq<seq<E>>, rows: seq<nat>, lost: seq<nat>, t: seq<seq<E>>, n: nat, size: nat)
    requires Laws(f) && IsTable(h, n, n) && InRange(rows, n) && InRange(lost, n)
    requires IsLeftInverse(f, t, SubMatrix(h, rows, lost, n), |lost|)
    ensures AlwaysRestores(f, h, rows, lost, t, n, size)
  {
    hide SubMatrix, PartialBlocks, EncodeBlocks, IsLeftInverse, StripeOk;
    assert IsTable(t, |lost|, |rows|) by { LeftInverseSize(f, t, SubMatrix(h, rows, lost, n), |lost|); }
    forall stripe: seq<Block<E>> | IsTable(stripe, n, size) && StripeOk(f, h, rows, stripe, size)
      ensures EncodeBlocks(f, t, PartialBlocks(f, h, rows, lost, stripe, size), size) == Pick(stripe, lost)
    {
      forall p | 0 <= p < size
        ensures Column(EncodeBlocks(f, t, PartialBlocks(f, h, rows, lost, stripe, size), size), p)
                == Column(Pick(stripe, lost), p)
      {
        LostPartDecoded(f, h, rows, lost, t, stripe, size, p);
      }
      SameColumns(EncodeBlocks(f, t, PartialBlocks(f, h, rows, lost, stripe, size), size), Pick(stripe, lost), size);
    }
  }

  lemma LeftInverseSize<E>(f: Field<E>, t: seq<seq<E>>, m: seq<seq<E>>, n: nat)
    requires IsLeftInverse(f, t, m, n)
    ensures IsTable(t, n, |m|)
  {
  }

  lemma SameColumns<E>(a: seq<Block<E>>, b: seq<Block<E>>, size: nat)
    requires IsTable(a, |b|, size) && IsTable(b, |b|, size) && forall p :: 0 <= p < size ==> Column(a, p) == Column(b, p)
    ensures a == b
  {
    forall i | 0 <= i < |b|
      ensures a[i] == b[i]
    {
      forall p | 0 <= p < size
        ensures a[i][p] == b[i][p]
      {
        assert Column(a, p)[i] == Column(b, p)[i];
      }
    }
  }

  /** A stripe word that is zero but for a one in lost block j and the parities this gives. */
  ghost function ProbeWord<E>(f: Field<E>, h: seq<seq<E>>, rows: seq<nat>, x: nat, n: nat): (b: seq<E>)
    requires IsTable(h, n, n) && x < n
    ensures |b| == n
    ensures forall i :: 0 <= i < n ==> b[i] == if i == x then f.one else if i in rows then h[i][x] else f.zero
  {
    seq(n, i requires 0 <= i < n => if i == x then f.one else if i in rows then h[i][x] else f.zero)
  }

  /** Only the lost block and the parities have anything in the word. */
  lemma ProbeSplits<E(!new)>(f: Field<E>, row: seq<E>, b: seq<E>, x: nat, rows: seq<nat>)
    requires Laws(f) && |row| == |b| && x < |b| && InRange(rows, |b|) && NoRepeats(rows) && x !in rows
    requires forall i :: 0 <= i < |b| && i != x && i !in rows ==> b[i] == f.zero
    ensures Dot(f, row, b) == f.add(f.mul(row[x], b[x]), Sum(f, Pick(MulVec(f, row, b), rows)))
  {
    var v, at := MulVec(f, row, b), [x] + rows;
    forall i | 0 <= i < |b| && v[i] != f.zero
      ensures i in at
    {
      ZeroTimes(f, row[i]);
    }
    PickCovers(f, v, at);
    PickConcat(v, [x], rows);
    SumOfFirst(f, Pick(v, at));
    assert Pick(v, at)[1..] == Pick(v, rows);
  }

  lemma ProbeChecked<E(!new)>(f: Field<E>, h: seq<seq<E>>, rows: seq<nat>, lost: seq<nat>, n: nat, j: nat, u: nat)
    requires Laws(f) && FreeRows(f, h, rows, lost, n) && j < |lost| && u < |rows|
    ensures Dot(f, h[rows[u]], ProbeWord(f, h, rows, lost[j], n)) == f.zero
  {
    hide SubMatrix, Identity, MulVec, Pick;
    var x, row := lost[j], h[rows[u]];
    var b := ProbeWord(f, h, rows, x, n);
    ProbeSplits(f, row, b, x, rows);
    OwnEquation(f, h, rows, b, n, u);
    assert rows[u] in rows;
    LawsAt(f, row[x], row[x], row[x]);
  }

  /** Of the parities' entries only the equation's own one counts. */
  lemma OwnEquation<E(!new)>(f: Field<E>, h: seq<seq<E>>, rows: seq<nat>, b: seq<E>, n: nat, u: nat)
    requires Laws(f) && IsTable(h, n, n) && InRange(rows, n) && |b| == n && u < |rows|
    requires SubMatrix(h, rows, rows, n) == Identity(f, |rows|)
    ensures Sum(f, Pick(MulVec(f, h[rows[u]], b), rows)) == b[rows[u]]
  {
    assert SubMatrix(h, rows, rows, n)[u] == UnitRow(f, |rows|, u);
    assert MulVec(f, UnitRow(f, |rows|, u), Pick(b, rows)) == Pick(MulVec(f, h[rows[u]], b), rows);
    DotUnit(f, |rows|, u, Pick(b, rows));
  }

  /** The probe as a stripe of blocks. */
  ghost function Repeated<E>(b: seq<E>, size: nat): (stripe: seq<Block<E>>)
    ensures IsTable(stripe, |b|, size) && forall p :: 0 <= p < size ==> Column(stripe, p) == b
  {
    var stripe := seq(|b|, i requires 0 <= i < |b| => seq(size, _ => b[i]));
    assert forall p :: 0 <= p < size ==> Column(stripe, p) == b;
    stripe
  }

  lemma ProbeRestored<E(!new)>(f: Field<E>, h: seq<seq<E>>, rows: seq<nat>, lost: seq<nat>, t: seq<seq<E>>, n: nat, size: nat,
                               j: nat)
    requires Laws(f) && FreeRows(f, h, rows, lost, n) && IsTable(t, |lost|, |rows|) && size > 0 && j < |lost|
    requires AlwaysRestores(f, h, rows, lost, t, n, size)
    ensures MatVec(f, t, MatVec(f, SubMatrix(h, rows, lost, n), UnitRow(f, |lost|, j))) == UnitRow(f, |lost|, j)
  {
    hide SubMatrix, ProbeWord, Repeated, Dot;
    var b := ProbeWord(f, h, rows, lost[j], n);
    var stripe := Repeated(b, size);
    forall u | 0 <= u < |rows|
      ensures Dot(f, h[rows[u]], b) == f.zero
    {
      ProbeChecked(f, h, rows, lost, n, j, u);
    }
    assert StripeOk(f, h, rows, stripe, size);
    assert Pick(b, lost) == UnitRow(f, |lost|, j);
    var part := PartialBlocks(f, h, rows, lost, stripe, size);
    PartialByWord(f, h, rows, lost, stripe, size, 0);
    EncodeByWord(f, t, part, size, 0);
    assert Column(Pick(stripe, lost), 0) == Pick(Column(stripe, 0), lost);
  }

  lemma RestoresIsLeftInverse<E(!new)>(f: Field<E>, h: seq<seq<E>>, rows: seq<nat>, lost: seq<nat>, t: seq<seq<E>>, n: nat,
                                       size: nat)
    requires Laws(f) && FreeRows(f, h, rows, lost, n) && IsTable(t, |lost|, |rows|) && size > 0
    requires AlwaysRestores(f, h, rows, lost, t, n, size)
    ensures IsLeftInverse(f, t, SubMatrix(h, rows, lost, n), |lost|)
  {
    hide SubMatrix, AlwaysRestores, Dot;
    var m, k := SubMatrix(h, rows, lost, n), |lost|;
    var prod := MatMul(f, t, m, k);
    forall i, j | 0 <= i < k && 0 <= j < k
      ensures prod[i][j] == Identity(f, k)[i][j]
    {
      ProbeRestored(f, h, rows, lost, t, n, size, j);
      MatVecThrough(f, t, m, UnitRow(f, k, j));
      DotCommutes(f, prod[i], UnitRow(f, k, j));
      DotUnit(f, k, j, prod[i]);
      assert MatVec(f, prod, UnitRow(f, k, j))[i] == UnitRow(f, k, j)[i];
    }
    forall i | 0 <= i < k
      ensures prod[i] == Identity(f, k)[i]
    {
    }
  }

  /**
   The program's decoding gives the lost blocks of every stripe exactly when there are as many parities as
   lost blocks, or at most one lost block.
   */
  lemma RestoresWhen<E(!new)>(f: Field<E>, h: seq<seq<E>>, rows: seq<nat>, lost: seq<nat>, inv: seq<seq<E>>, n: nat, size: nat)
    requires Laws(f) && f.one != f.zero && FreeRows(f, h, rows, lost, n) && |lost| <= |rows| && size > 0
    requires IsInverse(f, inv, LostColumns(h, rows, lost, n), |lost|)
    ensures AlwaysRestores(f, h, rows, lost, Reread(f, inv, |lost|, |rows|), n, size) <==> |rows| == |lost| || |lost| <= 1
  {
    hide AlwaysRestores, Reread, FreeRows, MatMul;
    FreeFacts(f, h, rows, lost, n);
    var m, t := SubMatrix(h, rows, lost, n), Reread(f, inv, |lost|, |rows|);
    assert m[..|lost|] == LostColumns(h, rows, lost, n);
    UndoesWhen(f, m, inv, |lost|);
    if IsLeftInverse(f, t, m, |lost|) {
      LeftInverseRestores(f, h, rows, lost, t, n, size);
    } else if AlwaysRestores(f, h, rows, lost, t, n, size) {
      RestoresIsLeftInverse(f, h, rows, lost, t, n, size);
    }
  }

  lemma FreeFacts<E>(f: Field<E>, h: seq<seq<E>>, rows: seq<nat>, lost: seq<nat>, n: nat)
    requires FreeRows(f, h, rows, lost, n)
    ensures IsTable(h, n, n) && InRange(rows, n) && InRange(lost, n)
  {
  }

  /**
   One parity too many, with real numbers in it: two lost blocks that enter the first two parities directly
   and not the third both come out as the first one.
   */
  lemma ExtraParityMisleads<E(!new)>(f: Field<E>, x: E, y: E)
    requires Laws(f) && x != y
    ensures var m := [UnitRow(f, 2, 0), UnitRow(f, 2, 1), Zeros(f, 2)];
            && MatVec(f, m, [x, y]) == [x, y, f.zero]
            && MatVec(f, Reread(f, Identity(f, 2), 2, 3), [x, y, f.zero]) == [x, x]
  {
    hide Dot;
    var sums, t := [x, y, f.zero], Reread(f, Identity(f, 2), 2, 3);
    DotUnit(f, 2, 0, [x, y]);
    DotUnit(f, 2, 1, [x, y]);
    DotZeros(f, Zeros(f, 2), [x, y]);
    forall i | 0 <= i < 2
      ensures t[i] == UnitRow(f, 3, 0)
    {
      ReadEntries(f, i);
    }
    DotUnit(f, 3, 0, sums);
  }

  lemma ReadEntries<E>(f: Field<E>, i: nat)
    requires i < 2
    ensures Reread(f, Identity(f, 2), 2, 3)[i] == UnitRow(f, 3, 0)
  {
    hide StoredEntry, Identity;
    var row := Reread(f, Identity(f, 2), 2, 3)[i];
    forall j | 0 <= j < 3
      ensures row[j] == UnitRow(f, 3, 0)[j]
    {
      SmallEntry(f, 3 * i + j);
      assert Pos(i, j, 3) == 3 * i + j;
    }
  }

  lemma SmallEntry<E>(f: Field<E>, t: nat)
    requires t < 6
    ensures StoredEntry(f, Identity(f, 2), 2, t) == if t % 3 == 0 then f.one else f.zero
  {
    assert RowOf(t, 2) == t / 2 && ColOf(t, 2) == t % 2;
  }
}

/**
 Why repair works, for one byte position of the blocks. The rows of a parity-check matrix annihilate a
 stripe; splitting the rows between the lost blocks and the clusters that hold the others, and adding
 the clusters' parts, leaves a square system for the lost blocks.
 */
module RepairAlgebra {
  import opened Listing
  import opened Fields
  import opened Sums
  import opened Matrices

  ghost predicate InRange(at: seq<nat>, n: nat) {
    forall i :: 0 <= i < |at| ==> at[i] < n
  }

  /** The entries of h in the listed rows and columns. */
  function SubMatrix<E>(h: seq<seq<E>>, rows: seq<nat>, cols: seq<nat>, n: nat): (r: seq<seq<E>>)
    requires IsTable(h, |h|, n) && InRange(rows, |h|) && InRange(cols, n)
    ensures IsTable(r, |rows|, |cols|)
    ensures forall u :: 0 <= u < |rows| ==> r[u] == Pick(h[rows[u]], cols)
  {
    seq(|rows|, u requires 0 <= u < |rows| => Pick(h[rows[u]], cols))
  }

  /** The chosen rows of h applied to the listed entries of the stripe only. */
  function Partial<E>(f: Field<E>, h: seq<seq<E>>, rows: seq<nat>, cols: seq<nat>, b: seq<E>): (r: seq<E>)
    requires IsTable(h, |h|, |b|) && InRange(rows, |h|) && InRange(cols, |b|)
    ensures |r| == |rows|
  {
    MatVec(f, SubMatrix(h, rows, cols, |b|), Pick(b, cols))
  }

  ghost predicate Annihilates<E>(f: Field<E>, h: seq<seq<E>>, rows: seq<nat>, b: seq<E>)
    requires IsTable(h, |h|, |b|) && InRange(rows, |h|)
  {
    forall u :: 0 <= u < |rows| ==> Dot(f, h[rows[u]], b) == f.zero
  }

  /** The sum of what all clusters contribute. */
  function TotalPartial<E>(f: Field<E>, h: seq<seq<E>>, rows: seq<nat>, clusters: seq<seq<nat>>, b: seq<E>): (r: seq<E>)
    requires IsTable(h, |h|, |b|) && InRange(rows, |h|)
    requires forall c :: 0 <= c < |clusters| ==> InRange(clusters[c], |b|)
    ensures |r| == |rows|
  {
    if clusters == [] then Zeros(f, |rows|)
    else
      AddVec(f, TotalPartial(f, h, rows, clusters[..|clusters| - 1], b),
             Partial(f, h, rows, clusters[|clusters| - 1], b))
  }

  /** Each live or lost block is listed at most once, and every non-zero coefficient of the rows is listed. */
  ghost predicate SplitsSupport<E>(f: Field<E>, h: seq<seq<E>>, rows: seq<nat>, lost: seq<nat>, clusters: seq<seq<nat>>,
                                   n: nat)
    requires IsTable(h, |h|, n) && InRange(rows, |h|)
  {
    && NoRepeats(lost + Concat(clusters)) && InRange(lost + Concat(clusters), n)
    && forall u, j :: 0 <= u < |rows| && 0 <= j < n && h[rows[u]][j] != f.zero ==> j in lost + Concat(clusters)
  }

  lemma {:induction false} FlatInRange(clusters: seq<seq<nat>>, n: nat)
    requires InRange(Concat(clusters), n)
    ensures forall c :: 0 <= c < |clusters| ==> InRange(clusters[c], n)
  {
    if clusters != [] {
      var last := |clusters| - 1;
      var rest := clusters[..last];
      assert forall i :: 0 <= i < |Concat(rest)| ==> Concat(rest)[i] == Concat(clusters)[i];
      assert forall i :: 0 <= i < |clusters[last]| ==> clusters[last][i] == Concat(clusters)[|Concat(rest)| + i];
      FlatInRange(rest, n);
    }
  }

  lemma PartialAt<E(!new)>(f: Field<E>, h: seq<seq<E>>, rows: seq<nat>, cols: seq<nat>, b: seq<E>, u: nat)
    requires Laws(f) && IsTable(h, |h|, |b|) && InRange(rows, |h|) && InRange(cols, |b|) && u < |rows|
    ensures Partial(f, h, rows, cols, b)[u] == Sum(f, Pick(MulVec(f, h[rows[u]], b), cols))
  {
    assert MulVec(f, Pick(h[rows[u]], cols), Pick(b, cols)) == Pick(MulVec(f, h[rows[u]], b), cols);
  }

  lemma PickConcat<E>(v: seq<E>, a: seq<nat>, b: seq<nat>)
    requires InRange(a, |v|) && InRange(b, |v|)
    ensures InRange(a + b, |v|) && Pick(v, a + b) == Pick(v, a) + Pick(v, b)
  {
  }

  /** What the clusters contribute together is what one cluster holding all their blocks would contribute. */
  lemma {:induction false} ClustersAdd<E(!new)>(f: Field<E>, h: seq<seq<E>>, rows: seq<nat>, clusters: seq<seq<nat>>,
                                                b: seq<E>, u: nat)
    requires Laws(f) && IsTable(h, |h|, |b|) && InRange(rows, |h|) && u < |rows|
    requires InRange(Concat(clusters), |b|) && forall c :: 0 <= c < |clusters| ==> InRange(clusters[c], |b|)
    ensures TotalPartial(f, h, rows, clusters, b)[u] == Sum(f, Pick(MulVec(f, h[rows[u]], b), Concat(clusters)))
  {
    if clusters != [] {
      var rest, last := clusters[..|clusters| - 1], clusters[|clusters| - 1];
      var v := MulVec(f, h[rows[u]], b);
      assert forall i :: 0 <= i < |Concat(rest)| ==> Concat(rest)[i] == Concat(clusters)[i];
      ClustersAdd(f, h, rows, rest, b, u);
      PartialAt(f, h, rows, last, b, u);
      PickConcat(v, Concat(rest), last);
      SumConcat(f, Pick(v, Concat(rest)), Pick(v, last));
    }
  }

  lemma SplitInRange(lost: seq<nat>, clusters: seq<seq<nat>>, n: nat)
    requires InRange(lost + Concat(clusters), n)
    ensures InRange(lost, n) && InRange(Concat(clusters), n)
    ensures forall c :: 0 <= c < |clusters| ==> InRange(clusters[c], n)
  {
    var helpers := Concat(clusters);
    assert forall i :: 0 <= i < |lost| ==> lost[i] == (lost + helpers)[i];
    assert forall i :: 0 <= i < |helpers| ==> helpers[i] == (lost + helpers)[|lost| + i];
    FlatInRange(clusters, n);
  }

  /** A sum that vanishes splits into two equal halves over any covering list of positions. */
  lemma VanishingSumSplits<E(!new)>(f: Field<E>, h: seq<E>, b: seq<E>, lost: seq<nat>, helpers: seq<nat>)
    requires Laws(f) && |h| == |b| && Dot(f, h, b) == f.zero
    requires NoRepeats(lost + helpers) && InRange(lost + helpers, |b|) && InRange(lost, |b|) && InRange(helpers, |b|)
    requires forall j :: 0 <= j < |b| && h[j] != f.zero ==> j in lost + helpers
    ensures Sum(f, Pick(MulVec(f, h, b), lost)) == Sum(f, Pick(MulVec(f, h, b), helpers))
  {
    var v := MulVec(f, h, b);
    forall j | 0 <= j < |v| && v[j] != f.zero
      ensures j in lost + helpers
    {
      LawsAt(f, b[j], b[j], b[j]);
    }
    PickCovers(f, v, lost + helpers);
    PickConcat(v, lost, helpers);
    SumConcat(f, Pick(v, lost), Pick(v, helpers));
    ZeroSum(f, Sum(f, Pick(v, lost)), Sum(f, Pick(v, helpers)));
  }

  /** The clusters' sum equals what the lost blocks would contribute to the same rows. */
  lemma HelpersSpeakForLost<E(!new)>(f: Field<E>, h: seq<seq<E>>, rows: seq<nat>, lost: seq<nat>,
                                     clusters: seq<seq<nat>>, b: seq<E>)
    requires Laws(f) && IsTable(h, |h|, |b|) && InRange(rows, |h|) && Annihilates(f, h, rows, b)
    requires SplitsSupport(f, h, rows, lost, clusters, |b|)
    ensures InRange(lost, |b|) && forall c :: 0 <= c < |clusters| ==> InRange(clusters[c], |b|)
    ensures TotalPartial(f, h, rows, clusters, b) == Partial(f, h, rows, lost, b)
  {
    SplitInRange(lost, clusters, |b|);
    forall u | 0 <= u < |rows|
      ensures TotalPartial(f, h, rows, clusters, b)[u] == Partial(f, h, rows, lost, b)[u]
    {
      VanishingSumSplits(f, h[rows[u]], b, lost, Concat(clusters));
      PartialAt(f, h, rows, lost, b, u);
      ClustersAdd(f, h, rows, clusters, b, u);
    }
  }

  ghost predicate IsLeftInverse<E>(f: Field<E>, inv: seq<seq<E>>, m: seq<seq<E>>, n: nat) {
    IsTable(inv, n, |m|) && IsTable(m, |m|, n) && MatMul(f, inv, m, n) == Identity(f, n)
  }

  /** Repair through partial parities: inverting the lost columns on the clusters' sum gives the lost entries. */
  lemma DecodedSumIsLost<E(!new)>(f: Field<E>, h: seq<seq<E>>, rows: seq<nat>, lost: seq<nat>,
                                  clusters: seq<seq<nat>>, b: seq<E>, inv: seq<seq<E>>)
    requires Laws(f) && IsTable(h, |h|, |b|) && InRange(rows, |h|) && Annihilates(f, h, rows, b)
    requires SplitsSupport(f, h, rows, lost, clusters, |b|)
    requires InRange(lost, |b|) && forall c :: 0 <= c < |clusters| ==> InRange(clusters[c], |b|)
    requires IsLeftInverse(f, inv, SubMatrix(h, rows, lost, |b|), |lost|)
    ensures MatVec(f, inv, TotalPartial(f, h, rows, clusters, b)) == Pick(b, lost)
  {
    HelpersSpeakForLost(f, h, rows, lost, clusters, b);
    MatVecThrough(f, inv, SubMatrix(h, rows, lost, |b|), Pick(b, lost));
    IdentityKeeps(f, Pick(b, lost));
  }

  /** The other order of work: each cluster inverts its own part, and the inverted parts are added. */
  function InvertedPartial<E>(f: Field<E>, h: seq<seq<E>>, rows: seq<nat>, cols: seq<nat>, b: seq<E>, inv: seq<seq<E>>)
      : (r: seq<E>)
    requires IsTable(h, |h|, |b|) && InRange(rows, |h|) && InRange(cols, |b|) && IsTable(inv, |inv|, |rows|)
    ensures |r| == |inv|
  {
    MatVec(f, MatMul(f, inv, SubMatrix(h, rows, cols, |b|), |cols|), Pick(b, cols))
  }

  function TotalInverted<E>(f: Field<E>, h: seq<seq<E>>, rows: seq<nat>, clusters: seq<seq<nat>>, b: seq<E>,
                            inv: seq<seq<E>>): (r: seq<E>)
    requires IsTable(h, |h|, |b|) && InRange(rows, |h|) && IsTable(inv, |inv|, |rows|)
    requires forall c :: 0 <= c < |clusters| ==> InRange(clusters[c], |b|)
    ensures |r| == |inv|
  {
    if clusters == [] then Zeros(f, |inv|)
    else
      AddVec(f, TotalInverted(f, h, rows, clusters[..|clusters| - 1], b, inv),
             InvertedPartial(f, h, rows, clusters[|clusters| - 1], b, inv))
  }

  /** Both orders of work give the same. */
  lemma {:induction false} InvertBeforeOrAfter<E(!new)>(f: Field<E>, h: seq<seq<E>>, rows: seq<nat>,
                                                        clusters: seq<seq<nat>>, b: seq<E>, inv: seq<seq<E>>)
    requires Laws(f) && IsTable(h, |h|, |b|) && InRange(rows, |h|) && IsTable(inv, |inv|, |rows|)
    requires forall c :: 0 <= c < |clusters| ==> InRange(clusters[c], |b|)
    ensures TotalInverted(f, h, rows, clusters, b, inv) == MatVec(f, inv, TotalPartial(f, h, rows, clusters, b))
  {
    if clusters == [] {
      forall i | 0 <= i < |inv|
        ensures MatVec(f, inv, Zeros(f, |rows|))[i] == f.zero
      {
        DotZeros(f, inv[i], Zeros(f, |rows|));
      }
    } else {
      var rest, last := clusters[..|clusters| - 1], clusters[|clusters| - 1];
      InvertBeforeOrAfter(f, h, rows, rest, b, inv);
      MatVecThrough(f, inv, SubMatrix(h, rows, last, |b|), Pick(b, last));
      MatVecAdd(f, inv, TotalPartial(f, h, rows, rest, b), Partial(f, h, rows, last, b));
    }
  }

  /** A stripe is a generator matrix applied to its data. */
  ghost predicate Generated<E>(f: Field<E>, gen: seq<seq<E>>, data: seq<E>, b: seq<E>) {
    IsTable(gen, |gen|, |data|) && |gen| == |b| && b == MatVec(f, gen, data)
  }

  function RowsOf<E>(gen: seq<seq<E>>, at: seq<nat>): (r: seq<seq<E>>)
    requires InRange(at, |gen|)
    ensures |r| == |at| && forall i :: 0 <= i < |at| ==> r[i] == gen[at[i]]
  {
    Pick(gen, at)
  }

  lemma StripeEntries<E>(f: Field<E>, gen: seq<seq<E>>, data: seq<E>, b: seq<E>, at: seq<nat>)
    requires Generated(f, gen, data, b) && InRange(at, |b|)
    ensures MatVec(f, RowsOf(gen, at), data) == Pick(b, at)
  {
  }

  /** Repair from k survivors: the lost generator rows through the inverse of the survivors' rows. */
  lemma SurvivorsGiveLost<E(!new)>(f: Field<E>, gen: seq<seq<E>>, data: seq<E>, b: seq<E>, lost: seq<nat>,
                                   live: seq<nat>, inv: seq<seq<E>>)
    requires Laws(f) && Generated(f, gen, data, b) && InRange(lost, |b|) && InRange(live, |b|)
    requires |live| == |data| && IsLeftInverse(f, inv, RowsOf(gen, live), |data|)
    ensures MatVec(f, MatMul(f, RowsOf(gen, lost), inv, |data|), Pick(b, live)) == Pick(b, lost)
  {
    var k := |data|;
    StripeEntries(f, gen, data, b, live);
    StripeEntries(f, gen, data, b, lost);
    MatVecThrough(f, inv, RowsOf(gen, live), data);
    IdentityKeeps(f, data);
    MatVecThrough(f, RowsOf(gen, lost), inv, Pick(b, live));
  }

  /** The decoding coefficients of the blocks a cluster holds, times those blocks. */
  function SurvivorPart<E>(f: Field<E>, d: seq<seq<E>>, live: seq<nat>, cols: seq<nat>, b: seq<E>): (r: seq<E>)
    requires IsTable(d, |d|, |live|) && InRange(cols, |b|)
    requires forall i :: 0 <= i < |cols| ==> cols[i] in live
    ensures |r| == |d|
  {
    MatVec(f, SubMatrix(d, UpTo(|d|), Positions(live, cols), |live|), Pick(b, cols))
  }

  function Position(live: seq<nat>, x: nat): (i: nat)
    requires x in live
    ensures i < |live| && live[i] == x && x !in live[..i]
  {
    if live[0] == x then 0 else 1 + Position(live[1..], x)
  }

  function Positions(live: seq<nat>, cols: seq<nat>): (r: seq<nat>)
    requires forall i :: 0 <= i < |cols| ==> cols[i] in live
    ensures |r| == |cols| && InRange(r, |live|) && forall i :: 0 <= i < |cols| ==> live[r[i]] == cols[i]
  {
    seq(|cols|, i requires 0 <= i < |cols| => Position(live, cols[i]))
  }

  ghost function MapPositions(live: seq<nat>, clusters: seq<seq<nat>>): (r: seq<seq<nat>>)
    requires forall c, i :: 0 <= c < |clusters| && 0 <= i < |clusters[c]| ==> clusters[c][i] in live
    ensures |r| == |clusters| && forall c :: 0 <= c < |r| ==> InRange(r[c], |live|)
    ensures forall c :: 0 <= c < |r| ==> r[c] == Positions(live, clusters[c])
  {
    seq(|clusters|, c requires 0 <= c < |clusters| => Positions(live, clusters[c]))
  }

  /** `at` lists the positions in `live` of the entries of `cols`. */
  ghost predicate PositionsOf(live: seq<nat>, at: seq<nat>, cols: seq<nat>) {
    |at| == |cols| && forall i :: 0 <= i < |cols| ==> at[i] < |live| && live[at[i]] == cols[i]
  }

  lemma PositionsAppend(live: seq<nat>, at: seq<nat>, cols: seq<nat>, at': seq<nat>, cols': seq<nat>)
    requires PositionsOf(live, at, cols) && PositionsOf(live, at', cols')
    ensures PositionsOf(live, at + at', cols + cols')
  {
  }

  lemma {:induction false} FlatPositions(live: seq<nat>, clusters: seq<seq<nat>>)
    requires forall c, i :: 0 <= c < |clusters| && 0 <= i < |clusters[c]| ==> clusters[c][i] in live
    ensures PositionsOf(live, Concat(MapPositions(live, clusters)), Concat(clusters))
  {
    if clusters != [] {
      var n := |clusters| - 1;
      var rest, last := clusters[..n], clusters[n];
      FlatPositions(live, rest);
      assert MapPositions(live, clusters)[..n] == MapPositions(live, rest);
      PositionsAppend(live, Concat(MapPositions(live, rest)), Concat(rest), Positions(live, last), last);
    }
  }

  function TotalSurvivorPart<E>(f: Field<E>, d: seq<seq<E>>, live: seq<nat>, clusters: seq<seq<nat>>, b: seq<E>)
      : (r: seq<E>)
    requires IsTable(d, |d|, |live|)
    requires forall c :: 0 <= c < |clusters| ==> InRange(clusters[c], |b|)
    requires forall c, i :: 0 <= c < |clusters| && 0 <= i < |clusters[c]| ==> clusters[c][i] in live
    ensures |r| == |d|
  {
    if clusters == [] then Zeros(f, |d|)
    else
      AddVec(f, TotalSurvivorPart(f, d, live, clusters[..|clusters| - 1], b),
             SurvivorPart(f, d, live, clusters[|clusters| - 1], b))
  }

  lemma {:induction false} SurvivorPartsArePartials<E(!new)>(f: Field<E>, d: seq<seq<E>>, live: seq<nat>,
                                                             clusters: seq<seq<nat>>, b: seq<E>)
    requires IsTable(d, |d|, |live|) && InRange(live, |b|)
    requires forall c :: 0 <= c < |clusters| ==> InRange(clusters[c], |b|)
    requires forall c, i :: 0 <= c < |clusters| && 0 <= i < |clusters[c]| ==> clusters[c][i] in live
    ensures TotalSurvivorPart(f, d, live, clusters, b)
            == TotalPartial(f, d, UpTo(|d|), MapPositions(live, clusters), Pick(b, live))
  {
    if clusters != [] {
      var rest, last := clusters[..|clusters| - 1], clusters[|clusters| - 1];
      SurvivorPartsArePartials(f, d, live, rest, b);
      assert MapPositions(live, clusters)[..|clusters| - 1] == MapPositions(live, rest);
      assert Pick(Pick(b, live), Positions(live, last)) == Pick(b, last);
    }
  }

  /** Clusters that hold every survivor once hold every position once. */
  lemma PositionsCover(live: seq<nat>, clusters: seq<seq<nat>>)
    requires NoRepeats(live) && NoRepeats(Concat(clusters)) && forall x :: x in live ==> x in Concat(clusters)
    requires forall c, i :: 0 <= c < |clusters| && 0 <= i < |clusters[c]| ==> clusters[c][i] in live
    ensures NoRepeats(Concat(MapPositions(live, clusters))) && InRange(Concat(MapPositions(live, clusters)), |live|)
    ensures forall i :: 0 <= i < |live| ==> i in Concat(MapPositions(live, clusters))
  {
    var at := Concat(MapPositions(live, clusters));
    FlatPositions(live, clusters);
    forall i | 0 <= i < |live|
      ensures i in at
    {
      assert live[i] in live;
      var j :| 0 <= j < |Concat(clusters)| && Concat(clusters)[j] == live[i];
      assert at[j] == i;
    }
  }

  /** When the clusters hold exactly the k survivors, the parts they compute add up to the lost entries. */
  lemma SurvivorClustersGiveLost<E(!new)>(f: Field<E>, gen: seq<seq<E>>, data: seq<E>, b: seq<E>, lost: seq<nat>,
                                          live: seq<nat>, clusters: seq<seq<nat>>, inv: seq<seq<E>>)
    requires Laws(f) && Generated(f, gen, data, b) && InRange(lost, |b|) && InRange(live, |b|)
    requires |live| == |data| && IsLeftInverse(f, inv, RowsOf(gen, live), |data|)
    requires NoRepeats(Concat(clusters)) && forall x :: x in live ==> x in Concat(clusters)
    requires forall c :: 0 <= c < |clusters| ==> InRange(clusters[c], |b|)
    requires forall c, i :: 0 <= c < |clusters| && 0 <= i < |clusters[c]| ==> clusters[c][i] in live
    requires NoRepeats(live)
    ensures TotalSurvivorPart(f, MatMul(f, RowsOf(gen, lost), inv, |data|), live, clusters, b) == Pick(b, lost)
  {
    var d, x := MatMul(f, RowsOf(gen, lost), inv, |data|), Pick(b, live);
    var at := MapPositions(live, clusters);
    SurvivorsGiveLost(f, gen, data, b, lost, live, inv);
    SurvivorPartsArePartials(f, d, live, clusters, b);
    PositionsCover(live, clusters);
    forall u | 0 <= u < |d|
      ensures TotalPartial(f, d, UpTo(|d|), at, x)[u] == MatVec(f, d, x)[u]
    {
      ClustersAdd(f, d, UpTo(|d|), at, x, u);
      PickCovers(f, MulVec(f, d[u], x), Concat(at));
    }
  }
}

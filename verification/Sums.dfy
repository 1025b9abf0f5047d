/** Sums of sequences of field elements, and how they split, merge and exchange. */
module Sums {
  import opened Listing
  import opened Fields

  function Sum<E>(f: Field<E>, s: seq<E>): E {
    if s == [] then f.zero else f.add(Sum(f, s[..|s| - 1]), s[|s| - 1])
  }

  function AddVec<E>(f: Field<E>, u: seq<E>, v: seq<E>): (r: seq<E>)
    requires |u| == |v|
    ensures |r| == |u| && forall i :: 0 <= i < |u| ==> r[i] == f.add(u[i], v[i])
  {
    seq(|u|, i requires 0 <= i < |u| => f.add(u[i], v[i]))
  }

  function Scale<E>(f: Field<E>, c: E, v: seq<E>): (r: seq<E>)
    ensures |r| == |v| && forall i :: 0 <= i < |v| ==> r[i] == f.mul(c, v[i])
  {
    seq(|v|, i requires 0 <= i < |v| => f.mul(c, v[i]))
  }

  function MulVec<E>(f: Field<E>, u: seq<E>, v: seq<E>): (r: seq<E>)
    requires |u| == |v|
    ensures |r| == |u| && forall i :: 0 <= i < |u| ==> r[i] == f.mul(u[i], v[i])
  {
    seq(|u|, i requires 0 <= i < |u| => f.mul(u[i], v[i]))
  }

  function Zeros<E>(f: Field<E>, n: nat): (r: seq<E>)
    ensures |r| == n && forall i :: 0 <= i < n ==> r[i] == f.zero
  {
    seq(n, _ => f.zero)
  }

  /** The entries of v at the listed positions. */
  function Pick<E>(v: seq<E>, at: seq<nat>): (r: seq<E>)
    requires forall i :: 0 <= i < |at| ==> at[i] < |v|
    ensures |r| == |at| && forall i :: 0 <= i < |at| ==> r[i] == v[at[i]]
  {
    seq(|at|, i requires 0 <= i < |at| => v[at[i]])
  }

  lemma Snoc<E>(f: Field<E>, s: seq<E>, x: E)
    ensures Sum(f, s + [x]) == f.add(Sum(f, s), x)
  {
    assert (s + [x])[..|s|] == s;
  }

  lemma {:induction false} SumAdd<E(!new)>(f: Field<E>, u: seq<E>, v: seq<E>)
    requires Laws(f) && |u| == |v|
    ensures Sum(f, AddVec(f, u, v)) == f.add(Sum(f, u), Sum(f, v))
  {
    if u == [] {
      LawsAt(f, f.zero, f.zero, f.zero);
    } else {
      var n := |u| - 1;
      SumAdd(f, u[..n], v[..n]);
      assert AddVec(f, u, v)[..n] == AddVec(f, u[..n], v[..n]);
      Interchange(f, Sum(f, u[..n]), Sum(f, v[..n]), u[n], v[n]);
    }
  }

  lemma {:induction false} SumScale<E(!new)>(f: Field<E>, c: E, v: seq<E>)
    requires Laws(f)
    ensures Sum(f, Scale(f, c, v)) == f.mul(c, Sum(f, v))
  {
    if v == [] {
      LawsAt(f, c, c, c);
    } else {
      var n := |v| - 1;
      SumScale(f, c, v[..n]);
      assert Scale(f, c, v)[..n] == Scale(f, c, v[..n]);
      LawsAt(f, c, Sum(f, v[..n]), v[n]);
    }
  }

  lemma {:induction false} SumZeros<E(!new)>(f: Field<E>, v: seq<E>)
    requires Laws(f) && forall i :: 0 <= i < |v| ==> v[i] == f.zero
    ensures Sum(f, v) == f.zero
  {
    if v != [] {
      SumZeros(f, v[..|v| - 1]);
      LawsAt(f, f.zero, f.zero, f.zero);
    }
  }

  lemma {:induction false} SumConcat<E(!new)>(f: Field<E>, u: seq<E>, v: seq<E>)
    requires Laws(f)
    ensures Sum(f, u + v) == f.add(Sum(f, u), Sum(f, v))
  {
    if v == [] {
      assert u + v == u;
      LawsAt(f, Sum(f, u), f.zero, f.zero);
    } else {
      var n := |v| - 1;
      SumConcat(f, u, v[..n]);
      assert (u + v)[..|u + v| - 1] == u + v[..n];
      LawsAt(f, Sum(f, u), Sum(f, v[..n]), v[n]);
    }
  }

  /** Filling a zero entry adds its new value to the sum. */
  lemma SumFill<E(!new)>(f: Field<E>, s: seq<E>, j: nat, x: E)
    requires Laws(f) && j < |s| && s[j] == f.zero
    ensures Sum(f, s[j := x]) == f.add(Sum(f, s), x)
  {
    var a, b := s[..j], s[j + 1..];
    assert s == (a + [f.zero]) + b && s[j := x] == (a + [x]) + b;
    SumConcat(f, a + [f.zero], b);
    SumConcat(f, a + [x], b);
    Snoc(f, a, f.zero);
    Snoc(f, a, x);
    var p, q := Sum(f, a), Sum(f, b);
    LawsAt(f, p, f.zero, q);
    LawsAt(f, p, x, q);
    LawsAt(f, x, q, q);
    LawsAt(f, p, q, x);
  }

  /** v with every entry that is not listed set to zero. */
  ghost function Masked<E>(f: Field<E>, v: seq<E>, at: seq<nat>): (r: seq<E>)
    ensures |r| == |v| && forall i :: 0 <= i < |v| ==> r[i] == if i in at then v[i] else f.zero
  {
    seq(|v|, i requires 0 <= i < |v| => if i in at then v[i] else f.zero)
  }

  /** Listing one more position fills one more entry. */
  lemma MaskedMore<E>(f: Field<E>, v: seq<E>, at: seq<nat>, j: nat)
    requires j < |v| && j !in at
    ensures Masked(f, v, at)[j] == f.zero
    ensures Masked(f, v, at + [j]) == Masked(f, v, at)[j := v[j]]
  {
    forall i | 0 <= i < |v|
      ensures Masked(f, v, at + [j])[i] == Masked(f, v, at)[j := v[j]][i]
    {
      assert i in at + [j] <==> i in at || i == j;
    }
  }

  lemma {:induction false} PickIsMasked<E(!new)>(f: Field<E>, v: seq<E>, at: seq<nat>)
    requires Laws(f) && NoRepeats(at) && forall i :: 0 <= i < |at| ==> at[i] < |v|
    ensures Sum(f, Pick(v, at)) == Sum(f, Masked(f, v, at))
  {
    if at == [] {
      SumZeros(f, Masked(f, v, at));
    } else {
      var n := |at| - 1;
      var rest, j := at[..n], at[n];
      PickIsMasked(f, v, rest);
      assert Pick(v, at) == Pick(v, rest) + [v[j]];
      Snoc(f, Pick(v, rest), v[j]);
      assert at == rest + [j];
      MaskedMore(f, v, rest, j);
      SumFill(f, Masked(f, v, rest), j, v[j]);
    }
  }

  /** Listing every non-zero position once is enough to get the whole sum. */
  lemma PickCovers<E(!new)>(f: Field<E>, v: seq<E>, at: seq<nat>)
    requires Laws(f) && NoRepeats(at) && forall i :: 0 <= i < |at| ==> at[i] < |v|
    requires forall i :: 0 <= i < |v| && v[i] != f.zero ==> i in at
    ensures Sum(f, Pick(v, at)) == Sum(f, v)
  {
    PickIsMasked(f, v, at);
    assert Masked(f, v, at) == v;
  }

  /** Where the first term of s occurs in its permutation t, and what is left on both sides. */
  lemma FirstTermIn<E>(s: seq<E>, t: seq<E>) returns (j: nat)
    requires s != [] && multiset(s) == multiset(t)
    ensures j < |t| && t[j] == s[0] && multiset(s[1..]) == multiset(t[..j] + t[j + 1..])
  {
    assert s[0] in multiset(t);
    j :| 0 <= j < |t| && t[j] == s[0];
    var one, rest := multiset{s[0]}, t[..j] + t[j + 1..];
    assert s == s[1..][..0] + [s[0]] + s[1..][0..];
    MultisetInsert(s[1..], s[0], 0);
    assert rest[..j] == t[..j] && rest[j..] == t[j + 1..];
    assert t == rest[..j] + [t[j]] + rest[j..];
    MultisetInsert(rest, t[j], j);
    assert multiset(s[1..]) == multiset(s) - one && multiset(rest) == multiset(t) - one;
  }

  lemma SumOfFirst<E(!new)>(f: Field<E>, s: seq<E>)
    requires Laws(f) && s != []
    ensures Sum(f, s) == f.add(s[0], Sum(f, s[1..]))
  {
    assert s == [s[0]] + s[1..];
    SumConcat(f, [s[0]], s[1..]);
    Snoc(f, [], s[0]);
    LawsAt(f, s[0], s[0], s[0]);
  }

  /** Any one term can be taken out and put in front. */
  lemma SumAround<E(!new)>(f: Field<E>, t: seq<E>, j: nat)
    requires Laws(f) && j < |t|
    ensures Sum(f, t) == f.add(t[j], Sum(f, t[..j] + t[j + 1..]))
  {
    var x, a, b := t[j], t[..j], t[j + 1..];
    assert t == (a + [x]) + b;
    SumConcat(f, a + [x], b);
    SumConcat(f, a, b);
    Snoc(f, a, x);
    LawsAt(f, Sum(f, a), x, Sum(f, b));
    LawsAt(f, x, Sum(f, a), Sum(f, b));
  }

  /** A table of r rows, each of length n. */
  ghost predicate IsTable<E>(a: seq<seq<E>>, r: nat, n: nat) {
    |a| == r && forall i :: 0 <= i < r ==> |a[i]| == n
  }

  function Column<E>(a: seq<seq<E>>, j: nat): (c: seq<E>)
    requires forall i :: 0 <= i < |a| ==> j < |a[i]|
    ensures |c| == |a| && forall i :: 0 <= i < |a| ==> c[i] == a[i][j]
  {
    seq(|a|, i requires 0 <= i < |a| => a[i][j])
  }

  ghost function RowSums<E>(f: Field<E>, a: seq<seq<E>>): (v: seq<E>)
    ensures |v| == |a| && forall i :: 0 <= i < |a| ==> v[i] == Sum(f, a[i])
  {
    seq(|a|, i requires 0 <= i < |a| => Sum(f, a[i]))
  }

  ghost function ColumnSums<E>(f: Field<E>, a: seq<seq<E>>, n: nat): (v: seq<E>)
    requires IsTable(a, |a|, n)
    ensures |v| == n && forall j :: 0 <= j < n ==> v[j] == Sum(f, Column(a, j))
  {
    seq(n, j requires 0 <= j < n => Sum(f, Column(a, j)))
  }

  /** Summing a table row by row or column by column gives the same. */
  lemma {:induction false} SumsExchange<E(!new)>(f: Field<E>, a: seq<seq<E>>, n: nat)
    requires Laws(f) && IsTable(a, |a|, n)
    ensures Sum(f, RowSums(f, a)) == Sum(f, ColumnSums(f, a, n))
  {
    if a == [] {
      SumZeros(f, ColumnSums(f, a, n));
    } else {
      var r := |a| - 1;
      var rest := a[..r];
      SumsExchange(f, rest, n);
      assert RowSums(f, a)[..r] == RowSums(f, rest);
      forall j | 0 <= j < n
        ensures ColumnSums(f, a, n)[j] == AddVec(f, ColumnSums(f, rest, n), a[r])[j]
      {
        assert Column(a, j)[..r] == Column(rest, j);
      }
      assert ColumnSums(f, a, n) == AddVec(f, ColumnSums(f, rest, n), a[r]);
      SumAdd(f, ColumnSums(f, rest, n), a[r]);
    }
  }
}

/** Matrices as sequences of rows, and the products the codes are built from. */
module Matrices {
  import opened Fields
  import opened Sums

  function Dot<E>(f: Field<E>, u: seq<E>, v: seq<E>): E
    requires |u| == |v|
  {
    Sum(f, MulVec(f, u, v))
  }

  function MatVec<E>(f: Field<E>, m: seq<seq<E>>, x: seq<E>): (r: seq<E>)
    requires IsTable(m, |m|, |x|)
    ensures |r| == |m| && forall i :: 0 <= i < |m| ==> r[i] == Dot(f, m[i], x)
  {
    seq(|m|, i requires 0 <= i < |m| => Dot(f, m[i], x))
  }

  /** The product of a and the |b|-by-n matrix b. */
  function MatMul<E>(f: Field<E>, a: seq<seq<E>>, b: seq<seq<E>>, n: nat): (r: seq<seq<E>>)
    requires IsTable(a, |a|, |b|) && IsTable(b, |b|, n)
    ensures IsTable(r, |a|, n)
    ensures forall i, j :: 0 <= i < |a| && 0 <= j < n ==> r[i][j] == Dot(f, a[i], Column(b, j))
  {
    seq(|a|, i requires 0 <= i < |a| => seq(n, j requires 0 <= j < n => Dot(f, a[i], Column(b, j))))
  }

  function UnitRow<E>(f: Field<E>, n: nat, i: nat): (r: seq<E>)
    ensures |r| == n && forall j :: 0 <= j < n ==> r[j] == if i == j then f.one else f.zero
  {
    seq(n, j => if i == j then f.one else f.zero)
  }

  function Identity<E>(f: Field<E>, n: nat): (r: seq<seq<E>>)
    ensures IsTable(r, n, n) && forall i :: 0 <= i < n ==> r[i] == UnitRow(f, n, i)
  {
    seq(n, i requires 0 <= i < n => UnitRow(f, n, i))
  }

  lemma DotAdd<E(!new)>(f: Field<E>, u: seq<E>, v: seq<E>, w: seq<E>)
    requires Laws(f) && |u| == |v| == |w|
    ensures Dot(f, u, AddVec(f, v, w)) == f.add(Dot(f, u, v), Dot(f, u, w))
  {
    forall i | 0 <= i < |u|
      ensures MulVec(f, u, AddVec(f, v, w))[i] == AddVec(f, MulVec(f, u, v), MulVec(f, u, w))[i]
    {
      LawsAt(f, u[i], v[i], w[i]);
    }
    assert MulVec(f, u, AddVec(f, v, w)) == AddVec(f, MulVec(f, u, v), MulVec(f, u, w));
    SumAdd(f, MulVec(f, u, v), MulVec(f, u, w));
  }

  lemma DotCommutes<E(!new)>(f: Field<E>, u: seq<E>, v: seq<E>)
    requires Laws(f) && |u| == |v|
    ensures Dot(f, u, v) == Dot(f, v, u)
  {
    forall i | 0 <= i < |u|
      ensures MulVec(f, u, v)[i] == MulVec(f, v, u)[i]
    {
      LawsAt(f, u[i], v[i], v[i]);
    }
    assert MulVec(f, u, v) == MulVec(f, v, u);
  }

  lemma DotZeros<E(!new)>(f: Field<E>, u: seq<E>, v: seq<E>)
    requires Laws(f) && |u| == |v| && forall i :: 0 <= i < |u| ==> u[i] == f.zero || v[i] == f.zero
    ensures Dot(f, u, v) == f.zero
  {
    forall i | 0 <= i < |u|
      ensures MulVec(f, u, v)[i] == f.zero
    {
      LawsAt(f, u[i], v[i], v[i]);
      LawsAt(f, v[i], v[i], v[i]);
    }
    SumZeros(f, MulVec(f, u, v));
  }

  lemma DotConcat<E(!new)>(f: Field<E>, u: seq<E>, v: seq<E>, u': seq<E>, v': seq<E>)
    requires Laws(f) && |u| == |v| && |u'| == |v'|
    ensures Dot(f, u + u', v + v') == f.add(Dot(f, u, v), Dot(f, u', v'))
  {
    assert MulVec(f, u + u', v + v') == MulVec(f, u, v) + MulVec(f, u', v');
    SumConcat(f, MulVec(f, u, v), MulVec(f, u', v'));
  }

  /** A unit row picks one entry. */
  lemma DotUnit<E(!new)>(f: Field<E>, n: nat, i: nat, x: seq<E>)
    requires Laws(f) && i < n == |x|
    ensures Dot(f, UnitRow(f, n, i), x) == x[i]
  {
    var v := MulVec(f, UnitRow(f, n, i), x);
    forall j | 0 <= j < n
      ensures v[j] == Zeros(f, n)[i := x[i]][j]
    {
      LawsAt(f, x[j], x[j], x[j]);
    }
    assert v == Zeros(f, n)[i := x[i]];
    SumFill(f, Zeros(f, n), i, x[i]);
    SumZeros(f, Zeros(f, n));
    LawsAt(f, x[i], x[i], x[i]);
  }

  lemma IdentityKeeps<E(!new)>(f: Field<E>, x: seq<E>)
    requires Laws(f)
    ensures MatVec(f, Identity(f, |x|), x) == x
  {
    forall i | 0 <= i < |x|
      ensures MatVec(f, Identity(f, |x|), x)[i] == x[i]
    {
      DotUnit(f, |x|, i, x);
    }
  }

  /** a[t] * (b[t][j] * x[j]) for every t and j. */
  ghost function Products<E>(f: Field<E>, a: seq<E>, b: seq<seq<E>>, x: seq<E>): (r: seq<seq<E>>)
    requires |a| == |b| && IsTable(b, |b|, |x|)
    ensures IsTable(r, |a|, |x|)
    ensures forall t, j :: 0 <= t < |a| && 0 <= j < |x| ==> r[t][j] == f.mul(a[t], f.mul(b[t][j], x[j]))
  {
    seq(|a|, t requires 0 <= t < |a| => Scale(f, a[t], MulVec(f, b[t], x)))
  }

  /** a . (b x) == (a b) . x, for a row a. */
  lemma DotThrough<E(!new)>(f: Field<E>, a: seq<E>, b: seq<seq<E>>, x: seq<E>)
    requires Laws(f) && |a| == |b| && IsTable(b, |b|, |x|)
    ensures Dot(f, a, MatVec(f, b, x)) == Dot(f, MatMul(f, [a], b, |x|)[0], x)
  {
    var t := Products(f, a, b, x);
    var ab := MatMul(f, [a], b, |x|)[0];
    forall i | 0 <= i < |a|
      ensures RowSums(f, t)[i] == MulVec(f, a, MatVec(f, b, x))[i]
    {
      assert t[i] == Scale(f, a[i], MulVec(f, b[i], x));
      SumScale(f, a[i], MulVec(f, b[i], x));
    }
    assert RowSums(f, t) == MulVec(f, a, MatVec(f, b, x));
    forall j | 0 <= j < |x|
      ensures ColumnSums(f, t, |x|)[j] == MulVec(f, ab, x)[j]
    {
      ProductsColumn(f, a, b, x, j);
      LawsAt(f, x[j], ab[j], ab[j]);
    }
    assert ColumnSums(f, t, |x|) == MulVec(f, ab, x);
    SumsExchange(f, t, |x|);
  }

  lemma ProductsColumn<E(!new)>(f: Field<E>, a: seq<E>, b: seq<seq<E>>, x: seq<E>, j: nat)
    requires Laws(f) && |a| == |b| && IsTable(b, |b|, |x|) && j < |x|
    ensures Sum(f, Column(Products(f, a, b, x), j)) == f.mul(x[j], Dot(f, a, Column(b, j)))
  {
    var c := MulVec(f, a, Column(b, j));
    forall t | 0 <= t < |a|
      ensures Column(Products(f, a, b, x), j)[t] == Scale(f, x[j], c)[t]
    {
      LawsAt(f, a[t], b[t][j], x[j]);
      LawsAt(f, x[j], c[t], c[t]);
    }
    assert Column(Products(f, a, b, x), j) == Scale(f, x[j], c);
    SumScale(f, x[j], c);
  }

  /** a (b x) == (a b) x */
  lemma MatVecThrough<E(!new)>(f: Field<E>, a: seq<seq<E>>, b: seq<seq<E>>, x: seq<E>)
    requires Laws(f) && IsTable(a, |a|, |b|) && IsTable(b, |b|, |x|)
    ensures MatVec(f, a, MatVec(f, b, x)) == MatVec(f, MatMul(f, a, b, |x|), x)
  {
    hide Dot;
    forall i | 0 <= i < |a|
      ensures MatVec(f, a, MatVec(f, b, x))[i] == MatVec(f, MatMul(f, a, b, |x|), x)[i]
    {
      DotThrough(f, a[i], b, x);
      assert MatMul(f, [a[i]], b, |x|)[0] == MatMul(f, a, b, |x|)[i];
    }
  }

  lemma MatVecAdd<E(!new)>(f: Field<E>, a: seq<seq<E>>, x: seq<E>, y: seq<E>)
    requires Laws(f) && |x| == |y| && IsTable(a, |a|, |x|)
    ensures MatVec(f, a, AddVec(f, x, y)) == AddVec(f, MatVec(f, a, x), MatVec(f, a, y))
  {
    forall i | 0 <= i < |a|
      ensures MatVec(f, a, AddVec(f, x, y))[i] == AddVec(f, MatVec(f, a, x), MatVec(f, a, y))[i]
    {
      DotAdd(f, a[i], x, y);
    }
  }
}

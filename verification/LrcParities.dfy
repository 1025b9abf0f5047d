/**
 What the parities of the five codes are, written out: each global parity is a row of the coding library's
 matrix applied to the data, each local parity adds up its group. Nothing here is taken from the encoding
 matrices; that the programs' matrices come to these sums is proved.
 */
module LrcParities {
  import opened Fields
  import opened Sums
  import opened Matrices
  import opened ErasureCode
  import opened LrcShape
  import opened LrcMatrices

  /** How many blocks the codes deal out to a group. */
  function Width(c: Lrc): nat
    requires LrcOk(c)
  {
    match c.kind
    case Azure => (c.k + c.l - 1) / c.l
    case AzurePlusOne => (c.k + c.l - 2) / (c.l - 1)
    case Optimal => (c.k + c.g + c.l - 1) / c.l
    case OptimalCauchy => (c.k + c.l - 1) / c.l
    case UniformCauchy => (c.k + c.g + c.l - 1) / c.l
  }

  /** Data block j is in group i. */
  predicate DataIn(c: Lrc, i: nat, j: nat)
    requires LrcOk(c)
  {
    i * Width(c) <= j < i * Width(c) + Width(c) && (c.kind.AzurePlusOne? ==> i < c.l - 1)
  }

  /** Global parity q is in group i. */
  predicate GlobalIn(c: Lrc, i: nat, q: nat)
    requires LrcOk(c)
  {
    match c.kind
    case Azure => false
    case AzurePlusOne => i == c.l - 1
    case Optimal => i * Width(c) <= c.k + q < i * Width(c) + Width(c)
    case OptimalCauchy => true
    case UniformCauchy => i * Width(c) <= c.k + q < i * Width(c) + Width(c)
  }

  /** What data word j adds to the parity of its group: the Cauchy codes multiply it by the last row of their matrix. */
  function Weighted<E>(f: Field<E>, c: Lrc, lib: seq<seq<E>>, data: seq<E>): (r: seq<E>)
    requires IsTable(lib, c.g + 1, c.k) && |data| == c.k
    ensures |r| == c.k
  {
    match c.kind
    case Azure => data
    case AzurePlusOne => data
    case Optimal => data
    case OptimalCauchy => MulVec(f, lib[c.g], data)
    case UniformCauchy => MulVec(f, lib[c.g], data)
  }

  /** Global parity q of the data words. */
  function GlobalWord<E>(f: Field<E>, c: Lrc, lib: seq<seq<E>>, data: seq<E>, q: nat): E
    requires IsTable(lib, c.g + 1, c.k) && |data| == c.k && q < c.g
  {
    match c.kind
    case Azure => Dot(f, lib[q + 1], data)
    case AzurePlusOne => Dot(f, lib[q + 1], data)
    case Optimal => Dot(f, lib[q + 1], data)
    case OptimalCauchy => Dot(f, lib[q], data)
    case UniformCauchy => Dot(f, lib[q], data)
  }

  /** The terms of group i, zero for blocks outside it. */
  function DataTerms<E>(f: Field<E>, c: Lrc, lib: seq<seq<E>>, data: seq<E>, i: nat): (r: seq<E>)
    requires LrcOk(c) && IsTable(lib, c.g + 1, c.k) && |data| == c.k
    ensures |r| == c.k
    ensures forall j :: 0 <= j < c.k ==> r[j] == if DataIn(c, i, j) then Weighted(f, c, lib, data)[j] else f.zero
  {
    seq(c.k, j requires 0 <= j < c.k => if DataIn(c, i, j) then Weighted(f, c, lib, data)[j] else f.zero)
  }

  function GlobalTerms<E>(f: Field<E>, c: Lrc, globals: seq<E>, i: nat): (r: seq<E>)
    requires LrcOk(c) && |globals| == c.g
    ensures |r| == c.g && forall q :: 0 <= q < c.g ==> r[q] == if GlobalIn(c, i, q) then globals[q] else f.zero
  {
    seq(c.g, q requires 0 <= q < c.g => if GlobalIn(c, i, q) then globals[q] else f.zero)
  }

  /** Local parity i: the data of its group and the global parities of its group as they are stored. */
  function LocalWord<E>(f: Field<E>, c: Lrc, lib: seq<seq<E>>, data: seq<E>, globals: seq<E>, i: nat): E
    requires LrcOk(c) && IsTable(lib, c.g + 1, c.k) && |data| == c.k && |globals| == c.g
  {
    f.add(Sum(f, DataTerms(f, c, lib, data, i)), Sum(f, GlobalTerms(f, c, globals, i)))
  }

  /** Words of data, global and local parities of one stripe. */
  ghost predicate WordsEncoded<E>(f: Field<E>, c: Lrc, lib: seq<seq<E>>, data: seq<E>, coding: seq<E>)
    requires LrcOk(c) && IsTable(lib, c.g + 1, c.k) && |data| == c.k && |coding| == c.g + c.l
  {
    && (forall q :: 0 <= q < c.g ==> coding[q] == GlobalWord(f, c, lib, data, q))
    && (forall i :: 0 <= i < c.l ==> coding[c.g + i] == LocalWord(f, c, lib, data, coding[..c.g], i))
  }

  /** The coding blocks hold these parities in every word. */
  ghost predicate BlocksEncoded<E>(f: Field<E>, c: Lrc, lib: seq<seq<E>>, data: seq<Block<E>>, coding: seq<Block<E>>, size: nat)
    requires LrcOk(c) && IsTable(lib, c.g + 1, c.k) && IsTable(data, c.k, size) && IsTable(coding, c.g + c.l, size)
  {
    forall p :: 0 <= p < size ==> WordsEncoded(f, c, lib, Column(data, p), Column(coding, p))
  }

  // The rows the programs multiply by come to these sums.

  lemma MembersAre(c: Lrc, i: nat)
    requires LrcOk(c) && i < c.l
    ensures forall j :: 0 <= j < c.k ==> (InGroup(c, i, j) <==> DataIn(c, i, j))
    ensures forall q :: 0 <= q < c.g ==> (InGroup(c, i, c.k + q) <==> GlobalIn(c, i, q))
  {
    assert Width(c) == R(c);
  }

  lemma DataPart<E(!new)>(f: Field<E>, c: Lrc, lib: seq<seq<E>>, data: seq<E>, i: nat)
    requires Laws(f) && LrcOk(c) && IsTable(lib, c.g + 1, c.k) && |data| == c.k && i < c.l
    ensures MulVec(f, LocalRow(f, c, lib, i)[..c.k], data) == DataTerms(f, c, lib, data, i)
  {
    hide DataIn, InGroup;
    MembersAre(c, i);
    var row := LocalRow(f, c, lib, i)[..c.k];
    forall j | 0 <= j < c.k
      ensures f.mul(row[j], data[j]) == DataTerms(f, c, lib, data, i)[j]
    {
      LawsAt(f, data[j], data[j], data[j]);
    }
  }

  lemma GlobalPart<E(!new)>(f: Field<E>, c: Lrc, lib: seq<seq<E>>, globals: seq<E>, i: nat)
    requires Laws(f) && LrcOk(c) && IsTable(lib, c.g + 1, c.k) && |globals| == c.g && i < c.l
    ensures MulVec(f, LocalRow(f, c, lib, i)[c.k..], globals) == GlobalTerms(f, c, globals, i)
  {
    hide GlobalIn, InGroup;
    MembersAre(c, i);
    var row := LocalRow(f, c, lib, i)[c.k..];
    forall q | 0 <= q < c.g
      ensures f.mul(row[q], globals[q]) == GlobalTerms(f, c, globals, i)[q]
    {
      LawsAt(f, globals[q], globals[q], globals[q]);
    }
  }

  /** A local row applied to the data and the global parities is the written-out sum. */
  lemma LocalRowSums<E(!new)>(f: Field<E>, c: Lrc, lib: seq<seq<E>>, data: seq<E>, globals: seq<E>, i: nat)
    requires Laws(f) && LrcOk(c) && IsTable(lib, c.g + 1, c.k) && |data| == c.k && |globals| == c.g && i < c.l
    ensures Dot(f, LocalRow(f, c, lib, i), data + globals) == LocalWord(f, c, lib, data, globals, i)
  {
    var row := LocalRow(f, c, lib, i);
    hide LocalRow, DataTerms, GlobalTerms, MulVec;
    assert row == row[..c.k] + row[c.k..];
    DotConcat(f, row[..c.k], data, row[c.k..], globals);
    DataPart(f, c, lib, data, i);
    GlobalPart(f, c, lib, globals, i);
  }

  lemma GlobalRowSums<E>(f: Field<E>, c: Lrc, lib: seq<seq<E>>, data: seq<E>, q: nat)
    requires IsTable(lib, c.g + 1, c.k) && |data| == c.k && q < c.g
    ensures Dot(f, GlobalRows(c, lib)[q], data) == GlobalWord(f, c, lib, data, q)
  {
  }

  // All local parities of a stripe together.

  lemma SumOfOne<E(!new)>(f: Field<E>, s: seq<E>, at: nat)
    requires Laws(f) && at < |s| && forall i :: 0 <= i < |s| && i != at ==> s[i] == f.zero
    ensures Sum(f, s) == s[at]
  {
    assert s == Zeros(f, |s|)[at := s[at]];
    SumFill(f, Zeros(f, |s|), at, s[at]);
    SumZeros(f, Zeros(f, |s|));
    LawsAt(f, s[at], s[at], s[at]);
  }

  /** Row home[j] is the only one with anything in column j, and it has terms[j] there. */
  ghost predicate EachOnce<E>(f: Field<E>, t: seq<seq<E>>, terms: seq<E>, home: seq<nat>) {
    && IsTable(t, |t|, |terms|) && |home| == |terms|
    && (forall j :: 0 <= j < |terms| ==> home[j] < |t| && t[home[j]][j] == terms[j])
    && (forall j, i :: 0 <= j < |terms| && 0 <= i < |t| && i != home[j] ==> t[i][j] == f.zero)
  }

  lemma EachOnceAdds<E(!new)>(f: Field<E>, t: seq<seq<E>>, terms: seq<E>, home: seq<nat>)
    requires Laws(f) && EachOnce(f, t, terms, home)
    ensures Sum(f, RowSums(f, t)) == Sum(f, terms)
  {
    SumsExchange(f, t, |terms|);
    forall j | 0 <= j < |terms|
      ensures ColumnSums(f, t, |terms|)[j] == terms[j]
    {
      SumOfOne(f, Column(t, j), home[j]);
    }
    assert ColumnSums(f, t, |terms|) == terms;
  }

  ghost function DataTable<E>(f: Field<E>, c: Lrc, lib: seq<seq<E>>, data: seq<E>): (t: seq<seq<E>>)
    requires LrcOk(c) && IsTable(lib, c.g + 1, c.k) && |data| == c.k
    ensures IsTable(t, c.l, c.k) && forall i :: 0 <= i < c.l ==> t[i] == DataTerms(f, c, lib, data, i)
  {
    seq(c.l, i requires 0 <= i < c.l => DataTerms(f, c, lib, data, i))
  }

  ghost function GlobalTable<E>(f: Field<E>, c: Lrc, globals: seq<E>): (t: seq<seq<E>>)
    requires LrcOk(c) && |globals| == c.g
    ensures IsTable(t, c.l, c.g) && forall i :: 0 <= i < c.l ==> t[i] == GlobalTerms(f, c, globals, i)
  {
    seq(c.l, i requires 0 <= i < c.l => GlobalTerms(f, c, globals, i))
  }

  /** The group of a dealt block. */
  lemma OneHome(c: Lrc, b: nat) returns (h: nat)
    requires LrcOk(c) && b < Spread(c)
    ensures h < c.l && forall i: nat :: (i * Width(c) <= b < i * Width(c) + Width(c)) <==> i == h
    ensures c.kind.AzurePlusOne? ==> h < c.l - 1
  {
    assert Width(c) == R(c);
    GroupByDivision(c, b);
    h := b / R(c);
  }

  lemma DataHomes<E>(f: Field<E>, c: Lrc, lib: seq<seq<E>>, data: seq<E>) returns (home: seq<nat>)
    requires LrcOk(c) && IsTable(lib, c.g + 1, c.k) && |data| == c.k
    ensures EachOnce(f, DataTable(f, c, lib, data), Weighted(f, c, lib, data), home)
  {
    hide Width;
    home := [];
    for j := 0 to c.k
      invariant |home| == j && forall a :: 0 <= a < j ==> home[a] < c.l && forall i: nat :: i < c.l ==> (DataIn(c, i, a) <==> i == home[a])
    {
      var h := OneHome(c, j);
      home := home + [h];
    }
  }

  lemma GlobalHomes<E>(f: Field<E>, c: Lrc, globals: seq<E>) returns (home: seq<nat>)
    requires LrcOk(c) && |globals| == c.g && (c.kind.AzurePlusOne? || c.kind.Optimal? || c.kind.UniformCauchy?)
    ensures EachOnce(f, GlobalTable(f, c, globals), globals, home)
  {
    hide Width;
    home := [];
    for q := 0 to c.g
      invariant |home| == q && forall a :: 0 <= a < q ==> home[a] < c.l && forall i: nat :: i < c.l ==> (GlobalIn(c, i, a) <==> i == home[a])
    {
      var h := c.l - 1;
      if !c.kind.AzurePlusOne? {
        h := OneHome(c, c.k + q);
      }
      home := home + [h];
    }
  }

  lemma {:induction false} Copies<E(!new)>(f: Field<E>, s: seq<E>, x: E)
    requires Laws(f) && forall i :: 0 <= i < |s| ==> s[i] == x
    ensures Sum(f, s) == if |s| % 2 == 1 then x else f.zero
  {
    if s != [] {
      Copies(f, s[..|s| - 1], x);
      LawsAt(f, x, x, x);
    }
  }

  /** What the global parities add to all local parities together. */
  function GlobalShareOfAll<E>(f: Field<E>, c: Lrc, globals: seq<E>): E {
    match c.kind
    case Azure => f.zero
    case AzurePlusOne => Sum(f, globals)
    case Optimal => Sum(f, globals)
    case OptimalCauchy => if c.l % 2 == 1 then Sum(f, globals) else f.zero
    case UniformCauchy => Sum(f, globals)
  }

  lemma GlobalsTogether<E(!new)>(f: Field<E>, c: Lrc, globals: seq<E>)
    requires Laws(f) && LrcOk(c) && |globals| == c.g
    ensures Sum(f, RowSums(f, GlobalTable(f, c, globals))) == GlobalShareOfAll(f, c, globals)
  {
    var t := GlobalTable(f, c, globals);
    if c.kind.Azure? {
      forall i | 0 <= i < c.l
        ensures RowSums(f, t)[i] == f.zero
      {
        SumZeros(f, t[i]);
      }
      SumZeros(f, RowSums(f, t));
    } else if c.kind.OptimalCauchy? {
      forall i | 0 <= i < c.l
        ensures RowSums(f, t)[i] == Sum(f, globals)
      {
        assert t[i] == globals;
      }
      Copies(f, RowSums(f, t), Sum(f, globals));
    } else {
      var home := GlobalHomes(f, c, globals);
      EachOnceAdds(f, t, globals, home);
    }
  }

  /**
   All local parities of a stripe added up: every data word once, weighted by the last row of the matrix in
   the Cauchy codes, and the global parities once, or not at all in Azure's code.
   */
  lemma LocalsTogether<E(!new)>(f: Field<E>, c: Lrc, lib: seq<seq<E>>, data: seq<E>, coding: seq<E>)
    requires Laws(f) && LrcOk(c) && IsTable(lib, c.g + 1, c.k) && |data| == c.k && |coding| == c.g + c.l
    requires WordsEncoded(f, c, lib, data, coding)
    ensures Sum(f, coding[c.g..]) == f.add(Sum(f, Weighted(f, c, lib, data)), GlobalShareOfAll(f, c, coding[..c.g]))
  {
    hide GlobalShareOfAll, Weighted, GlobalTerms, DataTerms;
    var globals := coding[..c.g];
    var a, b := RowSums(f, DataTable(f, c, lib, data)), RowSums(f, GlobalTable(f, c, globals));
    forall i | 0 <= i < c.l
      ensures coding[c.g..][i] == AddVec(f, a, b)[i]
    {
      assert coding[c.g + i] == LocalWord(f, c, lib, data, globals, i);
    }
    assert coding[c.g..] == AddVec(f, a, b);
    SumAdd(f, a, b);
    var home := DataHomes(f, c, lib, data);
    EachOnceAdds(f, DataTable(f, c, lib, data), Weighted(f, c, lib, data), home);
    GlobalsTogether(f, c, globals);
  }

  /** In the uniform Cauchy code these are the matrix's last row applied to the data, and all global parities. */
  lemma UniformLocalsTogether<E(!new)>(f: Field<E>, c: Lrc, lib: seq<seq<E>>, data: seq<E>, coding: seq<E>)
    requires Laws(f) && LrcOk(c) && c.kind.UniformCauchy? && IsTable(lib, c.g + 1, c.k)
    requires |data| == c.k && |coding| == c.g + c.l && WordsEncoded(f, c, lib, data, coding)
    ensures Sum(f, coding[c.g..]) == f.add(Dot(f, lib[c.g], data), Sum(f, coding[..c.g]))
  {
    hide WordsEncoded;
    LocalsTogether(f, c, lib, data, coding);
  }
}

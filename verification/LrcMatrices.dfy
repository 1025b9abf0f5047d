/**
 The encoding matrices of the locally repairable codes. Each local parity combines the members of its
 group, some of which may be global parities; folding those into the data gives the local rows.
 */
module LrcMatrices {
  import opened Fields
  import opened Sums
  import opened Matrices
  import opened LrcShape

  predicate IsCauchy(c: Lrc) { c.kind.OptimalCauchy? || c.kind.UniformCauchy? }

  /** The rows of the global parities: a Vandermonde matrix gives them after its first row, a Cauchy matrix before its last. */
  function GlobalRows<E>(c: Lrc, lib: seq<seq<E>>): (r: seq<seq<E>>)
    requires |lib| == c.g + 1
    ensures |r| == c.g && forall i :: 0 <= i < c.g ==> r[i] == lib[if IsCauchy(c) then i else i + 1]
  {
    if IsCauchy(c) then lib[..c.g] else lib[1..]
  }

  /** How block j enters the parity of a group it belongs to. */
  function Coefficient<E>(f: Field<E>, c: Lrc, lib: seq<seq<E>>, j: nat): E
    requires IsTable(lib, c.g + 1, c.k)
  {
    if IsCauchy(c) && j < c.k then lib[c.g][j] else f.one
  }

  /** The combination of data blocks and global parities that makes local parity i. */
  function LocalRow<E>(f: Field<E>, c: Lrc, lib: seq<seq<E>>, i: nat): (r: seq<E>)
    requires LrcOk(c) && IsTable(lib, c.g + 1, c.k) && i < c.l
    ensures |r| == c.k + c.g
    ensures forall j :: 0 <= j < c.k + c.g ==> r[j] == if InGroup(c, i, j) then Coefficient(f, c, lib, j) else f.zero
  {
    seq(c.k + c.g, j requires 0 <= j < c.k + c.g => if InGroup(c, i, j) then Coefficient(f, c, lib, j) else f.zero)
  }

  function LocalRows<E>(f: Field<E>, c: Lrc, lib: seq<seq<E>>): (r: seq<seq<E>>)
    requires LrcOk(c) && IsTable(lib, c.g + 1, c.k)
    ensures IsTable(r, c.l, c.k + c.g) && forall i :: 0 <= i < c.l ==> r[i] == LocalRow(f, c, lib, i)
  {
    seq(c.l, i requires 0 <= i < c.l => LocalRow(f, c, lib, i))
  }

  /** The data blocks and the global parities, as combinations of the data blocks. */
  function DataAndGlobals<E>(f: Field<E>, c: Lrc, lib: seq<seq<E>>): (r: seq<seq<E>>)
    requires IsTable(lib, c.g + 1, c.k)
    ensures IsTable(r, c.k + c.g, c.k)
  {
    Identity(f, c.k) + GlobalRows(c, lib)
  }

  /** The encoding matrix: global rows, then each local combination folded onto the data. */
  function EncodingTable<E>(f: Field<E>, c: Lrc, lib: seq<seq<E>>): (r: seq<seq<E>>)
    requires LrcOk(c) && IsTable(lib, c.g + 1, c.k)
    ensures IsTable(r, c.g + c.l, c.k)
  {
    GlobalRows(c, lib) + MatMul(f, LocalRows(f, c, lib), DataAndGlobals(f, c, lib), c.k)
  }

  /** What the first q global parities add to entry j of a local row. */
  function GlobalShare<E>(f: Field<E>, row: seq<E>, globals: seq<seq<E>>, k: nat, q: nat, j: nat): E
    requires IsTable(globals, |globals|, k) && |row| == k + |globals| && q <= |globals| && j < k
  {
    Dot(f, row[k..k + q], Column(globals[..q], j))
  }

  lemma DotUnitAnd<E(!new)>(f: Field<E>, row: seq<E>, k: nat, j: nat, rest: seq<E>)
    requires Laws(f) && |row| == k + |rest| && j < k
    ensures Dot(f, row, UnitRow(f, k, j) + rest) == f.add(row[j], Dot(f, row[k..], rest))
  {
    assert row == row[..k] + row[k..];
    DotConcat(f, row[..k], UnitRow(f, k, j), row[k..], rest);
    DotCommutes(f, row[..k], UnitRow(f, k, j));
    DotUnit(f, k, j, row[..k]);
  }

  lemma LiftedColumn<E>(f: Field<E>, c: Lrc, lib: seq<seq<E>>, j: nat)
    requires IsTable(lib, c.g + 1, c.k) && j < c.k
    ensures Column(DataAndGlobals(f, c, lib), j) == UnitRow(f, c.k, j) + Column(GlobalRows(c, lib), j)
  {
  }

  /** One entry of a folded row: its own coefficient and what the global parities bring in. */
  lemma FoldedEntry<E(!new)>(f: Field<E>, c: Lrc, lib: seq<seq<E>>, i: nat, j: nat)
    requires Laws(f) && LrcOk(c) && IsTable(lib, c.g + 1, c.k) && i < c.l && j < c.k
    ensures var row := LocalRow(f, c, lib, i);
            EncodingTable(f, c, lib)[c.g + i][j]
            == f.add(row[j], GlobalShare(f, row, GlobalRows(c, lib), c.k, c.g, j))
  {
    var row, globals := LocalRow(f, c, lib, i), GlobalRows(c, lib);
    hide Dot, DataAndGlobals, Identity, LocalRow, GlobalRows, UnitRow;
    var rest := Column(globals, j);
    LiftedColumn(f, c, lib, j);
    DotUnitAnd(f, row, c.k, j, rest);
    assert globals[..c.g] == globals && row[c.k..c.k + c.g] == row[c.k..];
  }

  /** Taking in one more global parity. */
  lemma ShareStep<E(!new)>(f: Field<E>, row: seq<E>, globals: seq<seq<E>>, k: nat, q: nat, j: nat)
    requires Laws(f) && IsTable(globals, |globals|, k) && |row| == k + |globals| && q < |globals| && j < k
    ensures GlobalShare(f, row, globals, k, 0, j) == f.zero
    ensures var next := q + 1;
            GlobalShare(f, row, globals, k, next, j)
            == f.add(GlobalShare(f, row, globals, k, q, j), f.mul(row[k + q], globals[q][j]))
  {
    var next := q + 1;
    var u, v := row[k..k + q], Column(globals[..q], j);
    assert row[k..k + next] == u + [row[k + q]];
    assert Column(globals[..next], j) == v + [globals[q][j]];
    assert MulVec(f, u + [row[k + q]], v + [globals[q][j]]) == MulVec(f, u, v) + [f.mul(row[k + q], globals[q][j])];
    Snoc(f, MulVec(f, u, v), f.mul(row[k + q], globals[q][j]));
  }

  /** Global parities outside the group leave the row as it is; those in the group are added as they are. */
  lemma ShareOf<E(!new)>(f: Field<E>, c: Lrc, lib: seq<seq<E>>, i: nat, q: nat, j: nat)
    requires Laws(f) && LrcOk(c) && IsTable(lib, c.g + 1, c.k) && i < c.l && q < c.g && j < c.k
    ensures var row, globals, next := LocalRow(f, c, lib, i), GlobalRows(c, lib), q + 1;
            var before := GlobalShare(f, row, globals, c.k, q, j);
            GlobalShare(f, row, globals, c.k, next, j)
            == if InGroup(c, i, c.k + q) then f.add(before, globals[q][j]) else before
  {
    var row, globals := LocalRow(f, c, lib, i), GlobalRows(c, lib);
    ShareStep(f, row, globals, c.k, q, j);
    LawsAt(f, GlobalShare(f, row, globals, c.k, q, j), globals[q][j], f.zero);
    LawsAt(f, globals[q][j], globals[q][j], f.zero);
  }
}

/** The locally repairable codes: which blocks belong to which local group. */
module LrcShape {
  import opened RowMajor

  datatype Kind = Azure | AzurePlusOne | Optimal | OptimalCauchy | UniformCauchy

  /** k data blocks, then g global parities, then l local parities. */
  datatype Lrc = Lrc(kind: Kind, k: nat, l: nat, g: nat)

  predicate LrcOk(c: Lrc) { c.k >= 1 && c.l >= (if c.kind.AzurePlusOne? then 2 else 1) }

  function BlockNum(c: Lrc): nat { c.k + c.g + c.l }

  /** How many blocks are dealt out over the local groups, and over how many groups. */
  function Spread(c: Lrc): nat {
    if c.kind.Optimal? || c.kind.UniformCauchy? then c.k + c.g else c.k
  }

  function Groups(c: Lrc): nat
    requires LrcOk(c)
  {
    if c.kind.AzurePlusOne? then c.l - 1 else c.l
  }

  /** The regular group size. */
  function R(c: Lrc): nat
    requires LrcOk(c)
  {
    (Spread(c) + Groups(c) - 1) / Groups(c)
  }

  function Min(a: int, b: int): int { if a <= b then a else b }

  /** The size of a group whose members start at i * r, and where they start, as a copy loop uses them. */
  function GroupSize(c: Lrc, i: nat): nat
    requires LrcOk(c)
    ensures GroupSize(c, i) >= 0
  {
    var n := Spread(c);
    var last := if n % R(c) == 0 then R(c) else n % R(c);
    var extra := if c.kind.OptimalCauchy? then c.g else 0;
    if i < Groups(c) - 1 then R(c) + extra
    else if i == Groups(c) - 1 then last + extra
    else c.g
  }

  function MinIdx(c: Lrc, i: nat): nat
    requires LrcOk(c)
  {
    if i < Groups(c) then i * R(c) else c.k
  }

  /** How many blocks group i really gets of those that are dealt out; not positive once they have run out. */
  function Dealt(c: Lrc, i: nat): int
    requires LrcOk(c)
  {
    Min(R(c), Spread(c) - i * R(c))
  }

  /** Block j, a data block or a global parity, belongs to local group i. */
  predicate InGroup(c: Lrc, i: nat, j: nat)
    requires LrcOk(c) && i < c.l && j < c.k + c.g
  {
    match c.kind
    case Azure => j < c.k && i * R(c) <= j < i * R(c) + R(c)
    case AzurePlusOne => if i < c.l - 1 then j < c.k && i * R(c) <= j < i * R(c) + R(c) else c.k <= j
    case Optimal => i * R(c) <= j < i * R(c) + R(c)
    case OptimalCauchy => j >= c.k || i * R(c) <= j < i * R(c) + R(c)
    case UniformCauchy => i * R(c) <= j < i * R(c) + R(c)
  }

  function Bid2Gid(c: Lrc, b: nat): nat
    requires LrcOk(c) && b < BlockNum(c)
  {
    RBounds(c);
    if c.kind.Optimal? || c.kind.UniformCauchy? then
      if b < c.k + c.g then b / R(c) else b - c.k - c.g
    else if b < c.k then b / R(c)
    else if b < c.k + c.g then (if c.kind.AzurePlusOne? then c.l - 1 else c.l)
    else b - c.k - c.g
  }

  /** Rounding up: the groups hold all the blocks, with less than one block to spare in each. */
  lemma RBounds(c: Lrc)
    requires LrcOk(c)
    ensures R(c) >= 1 && Spread(c) <= Groups(c) * R(c) <= Spread(c) + Groups(c) - 1
  {
    var n, d := Spread(c), Groups(c);
    var r := R(c);
    assert d * r <= n + d - 1 < d * r + d;
  }

  /** No group reaches further past the dealt blocks than its own number. */
  lemma GroupEnd(c: Lrc, i: nat)
    requires LrcOk(c) && i < Groups(c)
    ensures i * R(c) + R(c) <= Spread(c) + i
  {
    RBounds(c);
    var r, rest := R(c), Groups(c) - (i + 1);
    assert Groups(c) * r == i * r + r + rest * r;
    assert rest * r >= rest by { Monotone(1, r, rest); }
  }

  /** Division names the one row a position is in. */
  lemma OnlyRow(b: nat, r: nat, i: nat)
    requires r >= 1
    ensures (i * r <= b < i * r + r) <==> i == b / r
  {
    var q := b / r;
    assert q * r <= b < q * r + r;
    if i < q {
      RowGap(i, q, r);
    } else if i > q {
      RowGap(q, i, r);
    }
  }

  /** Block b of the data or the dealt globals is in the group that integer division names. */
  lemma GroupByDivision(c: Lrc, b: nat)
    requires LrcOk(c) && b < Spread(c)
    ensures R(c) >= 1 && b / R(c) < Groups(c)
    ensures forall i: nat :: (i * R(c) <= b < i * R(c) + R(c)) <==> i == b / R(c)
  {
    RBounds(c);
    var r := R(c);
    forall i: nat
      ensures (i * r <= b < i * r + r) <==> i == b / r
    {
      OnlyRow(b, r, i);
    }
    OnlyRow(b, r, b / r);
    if b / r >= Groups(c) {
      Monotone(Groups(c), b / r, r);
    }
  }

  /** Except for the optimal Cauchy code, a block belongs to the one group that `Bid2Gid` names. */
  lemma GroupIsBid2Gid(c: Lrc, i: nat, j: nat)
    requires LrcOk(c) && !c.kind.OptimalCauchy? && i < c.l && j < c.k + c.g
    ensures InGroup(c, i, j) <==> Bid2Gid(c, j) == i
  {
    if j < Spread(c) {
      GroupByDivision(c, j);
    }
  }
}

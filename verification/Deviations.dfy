/**
 What comes out of recalculating parities when help clusters send partial blocks of their own making: the
 right parities, off by exactly the sum of the helpers' deviations from what they ought to have sent.
 */
module Deviations {
  import opened Listing
  import opened Fields
  import opened Sums
  import opened RepairAlgebra
  import opened ErasureCode
  import opened BlockRepair

  /** Parities to recalculate: the rows of their equations, and the stripe as it is to be. */
  datatype Job<!E> = Job(f: Field<E>, h: seq<seq<E>>, rows: seq<nat>, truth: seq<Block<E>>, size: nat)

  /** What a help cluster with the listed blocks sends, one block for each parity. */
  type Helper<!E> = seq<nat> -> seq<Block<E>>

  ghost predicate Shaped<E>(c: Job<E>) {
    IsTable(c.truth, |c.truth|, c.size) && IsTable(c.h, |c.truth|, |c.truth|) && InRange(c.rows, |c.truth|)
  }

  /** What it ought to send. */
  ghost function Due<E>(c: Job<E>, idxs: seq<nat>): (r: seq<Block<E>>)
    requires Shaped(c) && InRange(idxs, |c.truth|)
    ensures IsTable(r, |c.rows|, c.size)
  {
    PartialBlocks(c.f, c.h, c.rows, idxs, c.truth, c.size)
  }

  ghost predicate SendsTables<E>(c: Job<E>, helper: Helper<E>, sets: seq<seq<nat>>) {
    forall i :: 0 <= i < |sets| ==> InRange(sets[i], |c.truth|) && IsTable(helper(sets[i]), |c.rows|, c.size)
  }

  /** Word p of what is sent, and of what ought to be sent, for parity u by each cluster. */
  ghost function SentWords<E>(c: Job<E>, helper: Helper<E>, sets: seq<seq<nat>>, u: nat, p: nat): (r: seq<E>)
    requires Shaped(c) && SendsTables(c, helper, sets) && u < |c.rows| && p < c.size
    ensures |r| == |sets| && forall i :: 0 <= i < |sets| ==> r[i] == helper(sets[i])[u][p]
  {
    seq(|sets|, i requires 0 <= i < |sets| => helper(sets[i])[u][p])
  }

  ghost function DueWords<E>(c: Job<E>, sets: seq<seq<nat>>, u: nat, p: nat): (r: seq<E>)
    requires Shaped(c) && (forall i :: 0 <= i < |sets| ==> InRange(sets[i], |c.truth|)) && u < |c.rows| && p < c.size
    ensures |r| == |sets| && forall i :: 0 <= i < |sets| ==> r[i] == Due(c, sets[i])[u][p]
  {
    seq(|sets|, i requires 0 <= i < |sets| => Due(c, sets[i])[u][p])
  }

  /** Word p of all deviations for parity u, added up. */
  ghost function Deviation<E>(c: Job<E>, helper: Helper<E>, sets: seq<seq<nat>>, u: nat, p: nat): E
    requires Shaped(c) && SendsTables(c, helper, sets) && u < |c.rows| && p < c.size
  {
    c.f.add(Sum(c.f, SentWords(c, helper, sets, u, p)), Sum(c.f, DueWords(c, sets, u, p)))
  }

  /** The parities that come out. */
  ghost function Outcome<E>(c: Job<E>, helper: Helper<E>, sets: seq<seq<nat>>): (r: seq<Block<E>>)
    requires Shaped(c) && SendsTables(c, helper, sets)
    ensures IsTable(r, |c.rows|, c.size)
    ensures forall u, p :: 0 <= u < |c.rows| && 0 <= p < c.size ==>
              r[u][p] == c.f.add(c.truth[c.rows[u]][p], Deviation(c, helper, sets, u, p))
  {
    seq(|c.rows|, u requires 0 <= u < |c.rows| =>
      seq(c.size, p requires 0 <= p < c.size => c.f.add(c.truth[c.rows[u]][p], Deviation(c, helper, sets, u, p))))
  }

  /** Helpers that send what they ought to do no harm. */
  lemma RightHelpers<E(!new)>(c: Job<E>, helper: Helper<E>, sets: seq<seq<nat>>)
    requires Laws(c.f) && Shaped(c) && SendsTables(c, helper, sets)
    requires forall i :: 0 <= i < |sets| ==> helper(sets[i]) == Due(c, sets[i])
    ensures Outcome(c, helper, sets) == Pick(c.truth, c.rows)
  {
    var r := Outcome(c, helper, sets);
    forall u, p | 0 <= u < |c.rows| && 0 <= p < c.size
      ensures r[u][p] == c.truth[c.rows[u]][p]
    {
      assert SentWords(c, helper, sets, u, p) == DueWords(c, sets, u, p);
      LawsAt(c.f, Sum(c.f, DueWords(c, sets, u, p)), c.f.zero, c.f.zero);
      LawsAt(c.f, c.truth[c.rows[u]][p], c.f.zero, c.f.zero);
    }
    forall u | 0 <= u < |c.rows|
      ensures r[u] == c.truth[c.rows[u]]
    {
    }
  }

  ghost predicate Permuted<X>(s: seq<X>, t: seq<X>) { multiset(s) == multiset(t) }

  lemma TakeFirst<X>(s: seq<X>, t: seq<X>) returns (j: nat)
    requires s != [] && Permuted(s, t)
    ensures j < |t| && t[j] == s[0] && Permuted(s[1..], t[..j] + t[j + 1..])
  {
    j := FirstTermIn(s, t);
  }

  lemma NothingPermuted<X>(s: seq<X>, t: seq<X>)
    requires Permuted(s, t)
    ensures s == [] ==> t == []
  {
    assert |multiset(s)| == |multiset(t)|;
  }

  /** The order of the clusters does not matter. */
  lemma {:induction false} SentInAnyOrder<E(!new)>(c: Job<E>, helper: Helper<E>, s: seq<seq<nat>>, t: seq<seq<nat>>, u: nat, p: nat)
    requires Laws(c.f) && Shaped(c) && SendsTables(c, helper, s) && SendsTables(c, helper, t) && u < |c.rows| && p < c.size
    requires Permuted(s, t)
    ensures Deviation(c, helper, s, u, p) == Deviation(c, helper, t, u, p)
    decreases |s|
  {
    hide Sum, Due, Permuted, Deviation;
    NothingPermuted(s, t);
    if s != [] {
      var j := TakeFirst(s, t);
      assert s[..0] + s[1..] == s[1..];
      SetAround(c, helper, s, 0, u, p);
      SetAround(c, helper, t, j, u, p);
      SentInAnyOrder(c, helper, s[1..], t[..j] + t[j + 1..], u, p);
    }
  }

  /** One cluster's share of the deviation, taken out. */
  lemma SetAround<E(!new)>(c: Job<E>, helper: Helper<E>, s: seq<seq<nat>>, j: nat, u: nat, p: nat)
    requires Laws(c.f) && Shaped(c) && SendsTables(c, helper, s) && u < |c.rows| && p < c.size && j < |s|
    ensures SendsTables(c, helper, s[..j] + s[j + 1..])
    ensures Deviation(c, helper, s, u, p)
            == c.f.add(c.f.add(helper(s[j])[u][p], Due(c, s[j])[u][p]), Deviation(c, helper, s[..j] + s[j + 1..], u, p))
  {
    hide Sum, Due;
    var rest := s[..j] + s[j + 1..];
    var a, b := SentWords(c, helper, s, u, p), DueWords(c, s, u, p);
    SumAround(c.f, a, j);
    SumAround(c.f, b, j);
    assert a[..j] + a[j + 1..] == SentWords(c, helper, rest, u, p);
    assert b[..j] + b[j + 1..] == DueWords(c, rest, u, p);
    Interchange(c.f, a[j], Sum(c.f, a[..j] + a[j + 1..]), b[j], Sum(c.f, b[..j] + b[j + 1..]));
  }

  // When the outcome is right whatever the helpers send.

  /** A helper that errs by one in every word for one set of blocks, and in nothing else. */
  ghost function Erring<E>(c: Job<E>, set0: seq<nat>): Helper<E>
    requires Shaped(c)
  {
    (idxs: seq<nat>) =>
      if !InRange(idxs, |c.truth|) then []
      else if idxs == set0 then
        seq(|c.rows|, u requires 0 <= u < |c.rows| =>
          seq(c.size, p requires 0 <= p < c.size => c.f.add(Due(c, idxs)[u][p], c.f.one)))
      else Due(c, idxs)
  }

  lemma ErringIsOff<E(!new)>(c: Job<E>, sets: seq<seq<nat>>, i: nat)
    requires Laws(c.f) && Shaped(c) && c.rows != [] && c.size > 0 && NoRepeats(sets) && i < |sets|
    requires forall j :: 0 <= j < |sets| ==> InRange(sets[j], |c.truth|)
    ensures SendsTables(c, Erring(c, sets[i]), sets)
    ensures Deviation(c, Erring(c, sets[i]), sets, 0, 0) == c.f.one
  {
    hide Due;
    var helper := Erring(c, sets[i]);
    var rest := sets[..i] + sets[i + 1..];
    assert SendsTables(c, helper, sets);
    SetAround(c, helper, sets, i, 0, 0);
    forall j | 0 <= j < |rest|
      ensures helper(rest[j]) == Due(c, rest[j])
    {
      assert rest[j] == sets[if j < i then j else j + 1];
    }
    assert SentWords(c, helper, rest, 0, 0) == DueWords(c, rest, 0, 0);
    var due := Due(c, sets[i])[0][0];
    LawsAt(c.f, Sum(c.f, DueWords(c, rest, 0, 0)), c.f.zero, c.f.zero);
    LawsAt(c.f, due, c.f.one, due);
    LawsAt(c.f, c.f.one, due, due);
    LawsAt(c.f, c.f.one, c.f.zero, c.f.zero);
  }

  /** The outcome is right, whatever the helpers send. */
  ghost predicate RightAnyway<E(!new)>(c: Job<E>, sets: seq<seq<nat>>)
    requires Shaped(c)
  {
    forall helper: Helper<E> :: SendsTables(c, helper, sets) ==> Outcome(c, helper, sets) == Pick(c.truth, c.rows)
  }

  lemma AddingOneChanges<E(!new)>(f: Field<E>, w: E)
    requires Laws(f) && f.one != f.zero
    ensures f.add(w, f.one) != w
  {
    LawsAt(f, w, w, f.one);
    LawsAt(f, f.one, w, w);
    assert f.add(w, f.add(w, f.one)) == f.one;
  }

  /** The parities do not depend on the helpers only when no helper sends partial blocks at all. */
  lemma RightAnywayWhen<E(!new)>(c: Job<E>, sets: seq<seq<nat>>)
    requires Laws(c.f) && c.f.one != c.f.zero && Shaped(c) && c.rows != [] && c.size > 0 && NoRepeats(sets)
    requires forall j :: 0 <= j < |sets| ==> InRange(sets[j], |c.truth|)
    ensures RightAnyway(c, sets) <==> sets == []
  {
    if sets == [] {
      forall helper: Helper<E> | SendsTables(c, helper, sets)
        ensures Outcome(c, helper, sets) == Pick(c.truth, c.rows)
      {
        RightHelpers(c, helper, sets);
      }
    } else {
      ErringIsOff(c, sets, 0);
      var w := c.truth[c.rows[0]][0];
      assert Outcome(c, Erring(c, sets[0]), sets)[0][0] == c.f.add(w, c.f.one);
      AddingOneChanges(c.f, w);
    }
  }
}

/** Lists without repetition, and how many there can be of them. */
module Listing {

  ghost predicate NoRepeats<X>(s: seq<X>) {
    forall i, j :: 0 <= i < j < |s| ==> s[i] != s[j]
  }

  lemma NoRepeatsBefore<X>(s: seq<X>, n: nat)
    requires NoRepeats(s) && n < |s|
    ensures NoRepeats(s[..n]) && s[n] !in s[..n]
  {
  }

  /** The parts one after another. */
  function Concat(parts: seq<seq<nat>>): seq<nat> {
    if parts == [] then [] else Concat(parts[..|parts| - 1]) + parts[|parts| - 1]
  }

  ghost function Elements<X>(s: seq<X>): set<X> { set x | x in s }

  lemma InElements<X>(s: seq<X>, x: X)
    ensures x in Elements(s) <==> x in s
  {
  }

  lemma {:induction false} SizeOfElements<X>(s: seq<X>)
    requires NoRepeats(s)
    ensures |Elements(s)| == |s|
  {
    if s != [] {
      var n := |s| - 1;
      SizeOfElements(s[..n]);
      assert s == s[..n] + [s[n]];
      assert Elements(s) == Elements(s[..n]) + {s[n]};
      assert s[n] !in Elements(s[..n]);
    }
  }

  /** A list has at most as many elements as entries, and as many only if it has no repeats. */
  lemma {:induction false} ElementsAtMost<X>(s: seq<X>)
    ensures |Elements(s)| <= |s|
    ensures |Elements(s)| == |s| ==> NoRepeats(s)
  {
    if s != [] {
      var n := |s| - 1;
      ElementsAtMost(s[..n]);
      assert s == s[..n] + [s[n]];
      assert Elements(s) == Elements(s[..n]) + {s[n]};
      if s[n] in s[..n] {
        assert Elements(s) == Elements(s[..n]);
      }
    }
  }

  lemma SubsetSize<X>(S: set<X>, T: set<X>)
    requires S <= T
    ensures |S| <= |T| && |T - S| == |T| - |S|
    ensures |S| == |T| ==> S == T
  {
    assert T == S + (T - S);
  }

  /** The list 0, 1, ..., n - 1. */
  function UpTo(n: nat): (r: seq<nat>)
    ensures |r| == n && forall i :: 0 <= i < n ==> r[i] == i
  {
    seq(n, i requires 0 <= i < n => i)
  }

  lemma InUpTo(n: nat, x: nat)
    requires x < n
    ensures x in UpTo(n)
  {
    assert UpTo(n)[x] == x;
  }

  lemma MultisetSnoc<X>(s: seq<X>, i: nat)
    requires i < |s|
    ensures multiset(s[..i + 1]) == multiset(s[..i]) + multiset{s[i]}
  {
    assert s[..i + 1] == s[..i] + [s[i]];
  }

  lemma MultisetInsert<X>(s: seq<X>, x: X, at: nat)
    requires at <= |s|
    ensures multiset(s[..at] + [x] + s[at..]) == multiset(s) + multiset{x}
  {
    assert s == s[..at] + s[at..];
  }

  /** Two lists that grow by a part each hold what their sources and the parts hold. */
  lemma GrowBoth<X>(all: seq<X>, part: seq<X>, p: seq<X>, q: seq<X>, p': seq<X>, q': seq<X>)
    requires multiset(all) == multiset(p) + multiset(q) && multiset(part) == multiset(p') + multiset(q')
    ensures multiset(all + part) == multiset(p + p') + multiset(q + q')
  {
  }

  /** A middle part put back between two lists. */
  lemma PutBetween<X>(all: seq<X>, p: seq<X>, q: seq<X>, mid: seq<X>)
    requires multiset(all) == multiset(p) + multiset(q)
    ensures multiset(all) + multiset(mid) == multiset((p + mid) + q)
  {
  }

  /** A rearrangement of a list without repetition has none either. */
  lemma SameMembers<X>(s: seq<X>, t: seq<X>)
    requires multiset(s) == multiset(t) && NoRepeats(t)
    ensures |s| == |t| && NoRepeats(s) && forall x :: x in s <==> x in t
  {
    assert |multiset(s)| == |multiset(t)|;
    forall x
      ensures x in s <==> x in t
    {
      assert x in s <==> x in multiset(s);
      assert x in t <==> x in multiset(t);
    }
    assert Elements(s) == Elements(t);
    SizeOfElements(t);
    ElementsAtMost(s);
  }

  /** A list without repetition inside another of the same length has all of it. */
  lemma FillsUp<X>(s: seq<X>, t: seq<X>)
    requires NoRepeats(s) && NoRepeats(t) && |s| == |t| && forall i :: 0 <= i < |s| ==> s[i] in t
    ensures forall x :: x in t ==> x in s
  {
    SizeOfElements(s);
    SizeOfElements(t);
    SubsetSize(Elements(s), Elements(t));
    forall x | x in t
      ensures x in s
    {
      InElements(t, x);
      InElements(s, x);
    }
  }

  /** Two lists without repetition and with the same elements are equally long. */
  lemma SameLength<X>(s: seq<X>, t: seq<X>)
    requires NoRepeats(s) && NoRepeats(t) && forall x :: x in s <==> x in t
    ensures |s| == |t|
  {
    SizeOfElements(s);
    SizeOfElements(t);
    assert Elements(s) == Elements(t);
  }

  lemma NoRepeatsConcat<X>(s: seq<X>, t: seq<X>)
    requires NoRepeats(s) && NoRepeats(t) && forall x :: x in s ==> x !in t
    ensures NoRepeats(s + t)
  {
    var u := s + t;
    forall i, j | 0 <= i < j < |u|
      ensures u[i] != u[j]
    {
      if i < |s| <= j {
        assert u[i] in s && u[j] in t;
      }
    }
  }

  /** What is left of a list after taking out some of its elements. */
  lemma RemainingLength<X(!new)>(left: seq<X>, all: seq<X>, out: seq<X>)
    requires NoRepeats(left) && NoRepeats(all) && NoRepeats(out)
    requires forall x :: x in left <==> x in all && x !in out
    requires forall x :: x in out ==> x in all
    ensures |left| == |all| - |out|
  {
    SizeOfElements(left);
    SizeOfElements(all);
    SizeOfElements(out);
    SubsetSize(Elements(out), Elements(all));
    forall x
      ensures x in Elements(left) <==> x in Elements(all) - Elements(out)
    {
      InElements(left, x);
      InElements(all, x);
      InElements(out, x);
    }
    assert Elements(left) == Elements(all) - Elements(out);
  }

  /** The elements of s that are not in `out`, in order. */
  function Without<X(==)>(s: seq<X>, out: seq<X>): (r: seq<X>) {
    if s == [] then []
    else Without(s[..|s| - 1], out) + (if s[|s| - 1] in out then [] else [s[|s| - 1]])
  }

  lemma {:induction false} WithoutMember<X>(s: seq<X>, out: seq<X>, x: X)
    ensures x in Without(s, out) <==> x in s && x !in out
  {
    if s != [] {
      var n := |s| - 1;
      assert s == s[..n] + [s[n]];
      WithoutMember(s[..n], out, x);
    }
  }

  lemma WithoutNoRepeats<X(!new)>(s: seq<X>, out: seq<X>)
    requires NoRepeats(s)
    ensures NoRepeats(Without(s, out))
    decreases |s|
  {
    if s != [] {
      var n := |s| - 1;
      var r, last := Without(s[..n], out), if s[n] in out then [] else [s[n]];
      WithoutNoRepeats(s[..n], out);
      forall x | x in r
        ensures x !in last
      {
        WithoutMember(s[..n], out, x);
      }
      NoRepeatsConcat(r, last);
    }
  }

  lemma {:induction false} WithoutNothing<X>(s: seq<X>)
    ensures Without(s, []) == s
  {
    if s != [] {
      WithoutNothing(s[..|s| - 1]);
    }
  }

  lemma {:induction false} WithoutConcat<X>(a: seq<X>, b: seq<X>, out: seq<X>)
    ensures Without(a + b, out) == Without(a, out) + Without(b, out)
  {
    if b == [] {
      assert a + b == a;
    } else {
      var n := |b| - 1;
      WithoutConcat(a, b[..n], out);
      assert (a + b)[..|a + b| - 1] == a + b[..n];
    }
  }

  lemma {:induction false} WithoutAbsent<X>(s: seq<X>, out: seq<X>, x: X)
    requires x !in s
    ensures Without(s, out + [x]) == Without(s, out)
  {
    if s != [] {
      var n := |s| - 1;
      assert s == s[..n] + [s[n]];
      WithoutAbsent(s[..n], out, x);
      assert s[n] in out + [x] <==> s[n] in out;
    }
  }

  /** Taking out one more element is erasing it where it stands. */
  lemma WithoutOneMore<X>(s: seq<X>, out: seq<X>, x: X, at: nat)
    requires NoRepeats(s) && x !in out && at < |Without(s, out)| && Without(s, out)[at] == x
    ensures Without(s, out + [x]) == Without(s, out)[..at] + Without(s, out)[at + 1..]
  {
    assert x in Without(s, out);
    WithoutMember(s, out, x);
    var i :| 0 <= i < |s| && s[i] == x;
    var a, b := s[..i], s[i + 1..];
    assert s == (a + [x]) + b && x !in a && x !in b;
    ErasedAround(a, b, out, x, at);
  }

  lemma ErasedAround<X>(a: seq<X>, b: seq<X>, out: seq<X>, x: X, at: nat)
    requires x !in a && x !in b && x !in out
    requires at < |Without((a + [x]) + b, out)| && Without((a + [x]) + b, out)[at] == x
    ensures var w := Without((a + [x]) + b, out);
            Without((a + [x]) + b, out + [x]) == w[..at] + w[at + 1..]
  {
    hide Without;
    var wa, wb := Without(a, out), Without(b, out);
    WithoutAround(a, b, x, out);
    WithoutAround(a, b, x, out + [x]);
    WithoutAbsent(a, out, x);
    WithoutAbsent(b, out, x);
    WithoutMember(a, out, x);
    WithoutMember(b, out, x);
    OnlyPlace(wa, wb, x, at);
  }

  lemma WithoutAround<X>(a: seq<X>, b: seq<X>, x: X, out: seq<X>)
    ensures Without((a + [x]) + b, out) == Without(a, out) + (if x in out then [] else [x]) + Without(b, out)
  {
    WithoutConcat(a + [x], b, out);
    WithoutConcat(a, [x], out);
    assert [x][..0] == [];
  }

  lemma PlaceIn<X>(a: seq<X>, b: seq<X>, x: X, at: nat)
    requires at < |a + [x] + b| && (a + [x] + b)[at] == x
    ensures at < |a| ==> x in a
    ensures at > |a| ==> x in b
  {
    assert at < |a| ==> a[at] == x;
    assert at > |a| ==> b[at - |a| - 1] == x;
  }

  /** If x is in neither a nor b then its only place in a + [x] + b is between them. */
  lemma OnlyPlace<X>(a: seq<X>, b: seq<X>, x: X, at: nat)
    requires x !in a && x !in b
    requires at < |a + [x] + b| && (a + [x] + b)[at] == x
    ensures (a + [x] + b)[..at] + (a + [x] + b)[at + 1..] == a + [] + b
  {
    PlaceIn(a, b, x, at);
  }

  /** A list with one entry taken out. */
  lemma OneTaken<X>(s: seq<X>, i: nat)
    requires NoRepeats(s) && i < |s|
    ensures var rest := s[..i] + s[i + 1..];
            NoRepeats(rest) && |rest| == |s| - 1 && forall x :: x in rest <==> x in s && x != s[i]
  {
    var rest := s[..i] + s[i + 1..];
    assert forall j :: 0 <= j < |rest| ==> rest[j] == if j < i then s[j] else s[j + 1];
    forall x | x in s && x != s[i]
      ensures x in rest
    {
      var j :| 0 <= j < |s| && s[j] == x;
      assert rest[if j < i then j else j - 1] == x;
    }
  }
}

/**
 The arithmetic the erasure codes compute with: addition is its own inverse, multiplication distributes
 over it. Everything about matrices and codes is proved for any such arithmetic; GaloisField shows that
 bytes are one.
 */
module Fields {

  datatype Field<!E> = Field(zero: E, one: E, add: (E, E) -> E, mul: (E, E) -> E)

  ghost predicate LawsOn<E>(f: Field<E>, a: E, b: E, c: E) {
    && f.add(a, b) == f.add(b, a)
    && f.add(f.add(a, b), c) == f.add(a, f.add(b, c))
    && f.add(a, f.zero) == a
    && f.add(a, a) == f.zero
    && f.mul(a, b) == f.mul(b, a)
    && f.mul(f.mul(a, b), c) == f.mul(a, f.mul(b, c))
    && f.mul(a, f.add(b, c)) == f.add(f.mul(a, b), f.mul(a, c))
    && f.mul(a, f.one) == a
    && f.mul(a, f.zero) == f.zero
  }

  ghost predicate Laws<E(!new)>(f: Field<E>) {
    forall a, b, c :: LawsOn(f, a, b, c)
  }

  lemma LawsAt<E(!new)>(f: Field<E>, a: E, b: E, c: E)
    requires Laws(f)
    ensures f.add(a, b) == f.add(b, a)
    ensures f.add(f.add(a, b), c) == f.add(a, f.add(b, c))
    ensures f.add(a, f.zero) == a && f.add(f.zero, a) == a
    ensures f.add(a, a) == f.zero
    ensures f.mul(a, b) == f.mul(b, a)
    ensures f.mul(f.mul(a, b), c) == f.mul(a, f.mul(b, c))
    ensures f.mul(a, f.add(b, c)) == f.add(f.mul(a, b), f.mul(a, c))
    ensures f.mul(a, f.one) == a && f.mul(f.one, a) == a
    ensures f.mul(a, f.zero) == f.zero && f.mul(f.zero, a) == f.zero
  {
    assert LawsOn(f, a, b, c) && LawsOn(f, a, f.zero, a) && LawsOn(f, a, f.one, a);
  }

  /** (a + b) + (c + d) == (a + c) + (b + d) */
  lemma Interchange<E(!new)>(f: Field<E>, a: E, b: E, c: E, d: E)
    requires Laws(f)
    ensures f.add(f.add(a, b), f.add(c, d)) == f.add(f.add(a, c), f.add(b, d))
  {
    LawsAt(f, a, b, f.add(c, d));
    LawsAt(f, b, c, d);
    LawsAt(f, c, b, d);
    LawsAt(f, a, c, f.add(b, d));
  }

  /** Since addition is its own inverse, a sum is zero only when its two sides agree. */
  lemma ZeroSum<E(!new)>(f: Field<E>, a: E, b: E)
    requires Laws(f) && f.add(a, b) == f.zero
    ensures a == b
  {
    LawsAt(f, a, b, b);
    LawsAt(f, b, b, b);
  }

  lemma ZeroSumWhen<E(!new)>(f: Field<E>, a: E, b: E)
    requires Laws(f)
    ensures f.add(a, b) == f.zero <==> a == b
  {
    LawsAt(f, a, b, b);
    if f.add(a, b) == f.zero {
      ZeroSum(f, a, b);
    }
  }
}

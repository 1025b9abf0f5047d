/**
 GF(2^8) as used for 8-bit words: addition is exclusive or, multiplication is polynomial multiplication
 modulo x^8 + x^4 + x^3 + x^2 + 1. It satisfies the laws the codes rely on.
 */
module GaloisField {
  import opened Listing
  import opened Fields

  function Add(a: bv8, b: bv8): bv8 { a ^ b }

  /** What overflowing out of the top bit adds back. */
  function Reduce(top: bv8): bv8 { if top == 0 then 0 else 0x1D }

  /** Multiplication by x. */
  function Xtime(a: bv8): bv8 { (a << 1) ^ Reduce(a & 0x80) }

  /** Division of a bit pattern by x. */
  function Half(a: bv8): bv8 { a >> 1 }

  /** a, if the lowest bit of b is set. */
  function IfLow(a: bv8, b: bv8): bv8 { if b & 1 == 0 then 0 else a }

  /** The product of a with the polynomial made of the low n bits of b. */
  function MulLow(a: bv8, b: bv8, n: nat): bv8
    decreases n
  {
    if n == 0 then 0 else Add(IfLow(a, b), MulLow(Xtime(a), Half(b), n - 1))
  }

  function Mul(a: bv8, b: bv8): bv8 { MulLow(a, b, 8) }

  const Bytes: Field<bv8> := Field(0, 1, (a, b) => Add(a, b), (a, b) => Mul(a, b))

  lemma AddLaws(a: bv8, b: bv8, c: bv8)
    ensures Add(a, b) == Add(b, a) && Add(Add(a, b), c) == Add(a, Add(b, c))
    ensures Add(a, 0) == a && Add(0, a) == a && Add(a, a) == 0
  {
  }

  lemma Add4(a: bv8, b: bv8, c: bv8, d: bv8)
    ensures Add(Add(a, b), Add(c, d)) == Add(Add(a, c), Add(b, d))
  {
    hide Add;
    AddLaws(a, b, Add(c, d));
    AddLaws(b, c, d);
    AddLaws(c, b, d);
    AddLaws(a, c, Add(b, d));
  }

  lemma HalfLinear(a: bv8, b: bv8)
    ensures Half(Add(a, b)) == Add(Half(a), Half(b))
  {
  }

  lemma EndBits(a: bv8, b: bv8)
    ensures a & 0x80 == 0 || a & 0x80 == 0x80
    ensures a & 1 == 0 || a & 1 == 1
    ensures (a ^ b) & 0x80 == (a & 0x80) ^ (b & 0x80)
    ensures (a ^ b) & 1 == (a & 1) ^ (b & 1)
    ensures (a ^ b) << 1 == (a << 1) ^ (b << 1)
  {
  }

  lemma ReduceLinear(a: bv8, b: bv8)
    requires (a == 0 || a == 0x80) && (b == 0 || b == 0x80)
    ensures Reduce(a ^ b) == Reduce(a) ^ Reduce(b)
  {
  }

  lemma XtimeLinear(a: bv8, b: bv8)
    ensures Xtime(Add(a, b)) == Add(Xtime(a), Xtime(b))
  {
    EndBits(a, b);
    EndBits(b, a);
    ReduceLinear(a & 0x80, b & 0x80);
    Xor4(a << 1, b << 1, Reduce(a & 0x80), Reduce(b & 0x80));
  }

  lemma Xor4(a: bv8, b: bv8, c: bv8, d: bv8)
    ensures (a ^ b) ^ (c ^ d) == (a ^ c) ^ (b ^ d)
  {
  }

  lemma IfLowLinear(a: bv8, b: bv8, c: bv8)
    ensures IfLow(Add(a, c), b) == Add(IfLow(a, b), IfLow(c, b))
    ensures IfLow(a, Add(b, c)) == Add(IfLow(a, b), IfLow(a, c))
  {
    EndBits(b, c);
    EndBits(c, b);
    AddLaws(a, a, a);
    AddLaws(a, c, a);
  }

  lemma XtimeOfIf(a: bv8, b: bv8)
    ensures Xtime(IfLow(a, b)) == IfLow(Xtime(a), b) && Xtime(0) == 0
  {
  }

  lemma {:induction false} LinearLeft(a: bv8, c: bv8, b: bv8, n: nat)
    ensures MulLow(Add(a, c), b, n) == Add(MulLow(a, b, n), MulLow(c, b, n))
    decreases n
  {
    hide Add, Xtime, IfLow, Half;
    AddLaws(0, 0, 0);
    if n > 0 {
      XtimeLinear(a, c);
      IfLowLinear(a, b, c);
      LinearLeft(Xtime(a), Xtime(c), Half(b), n - 1);
      Add4(IfLow(a, b), IfLow(c, b), MulLow(Xtime(a), Half(b), n - 1), MulLow(Xtime(c), Half(b), n - 1));
    }
  }

  lemma {:induction false} LinearRight(a: bv8, b: bv8, c: bv8, n: nat)
    ensures MulLow(a, Add(b, c), n) == Add(MulLow(a, b, n), MulLow(a, c, n))
    decreases n
  {
    hide Add, Xtime, IfLow, Half;
    AddLaws(0, 0, 0);
    if n > 0 {
      HalfLinear(b, c);
      IfLowLinear(a, b, c);
      LinearRight(Xtime(a), Half(b), Half(c), n - 1);
      Add4(IfLow(a, b), IfLow(a, c), MulLow(Xtime(a), Half(b), n - 1), MulLow(Xtime(a), Half(c), n - 1));
    }
  }

  lemma ZeroLeft(b: bv8, n: nat)
    ensures MulLow(0, b, n) == 0
  {
    hide Add, Xtime, IfLow, Half;
    LinearLeft(0, 0, b, n);
    AddLaws(0, 0, 0);
    AddLaws(MulLow(0, b, n), 0, 0);
  }

  lemma {:induction false} XtimeOfProduct(a: bv8, b: bv8, n: nat)
    ensures Xtime(MulLow(a, b, n)) == MulLow(Xtime(a), b, n)
    decreases n
  {
    hide Add, Xtime, IfLow, Half;
    XtimeOfIf(a, b);
    if n > 0 {
      XtimeLinear(IfLow(a, b), MulLow(Xtime(a), Half(b), n - 1));
      XtimeOfProduct(Xtime(a), Half(b), n - 1);
    }
  }

  lemma PowersOfX()
    ensures Xtime(1) == 2 && Xtime(2) == 4 && Xtime(4) == 8 && Xtime(8) == 16
    ensures Xtime(16) == 32 && Xtime(32) == 64 && Xtime(64) == 128
  {
  }

  lemma BitsRebuild(b: bv8, b1: bv8, b2: bv8, b3: bv8, b4: bv8, b5: bv8, b6: bv8, b7: bv8)
    requires b1 == Half(b) && b2 == Half(b1) && b3 == Half(b2) && b4 == Half(b3)
    requires b5 == Half(b4) && b6 == Half(b5) && b7 == Half(b6)
    ensures Add(IfLow(1, b), Add(IfLow(2, b1), Add(IfLow(4, b2), Add(IfLow(8, b3),
              Add(IfLow(16, b4), Add(IfLow(32, b5), Add(IfLow(64, b6), Add(IfLow(128, b7), 0)))))))) == b
  {
  }

  lemma MulStep(a: bv8, b: bv8, n: nat)
    requires n > 0
    ensures MulLow(a, b, n) == Add(IfLow(a, b), MulLow(Xtime(a), Half(b), n - 1))
  {
    hide Add, Xtime, IfLow, Half;
  }

  /** The product written out, bit by bit. */
  lemma Unrolled(a: bv8, a1: bv8, a2: bv8, a3: bv8, a4: bv8, a5: bv8, a6: bv8, a7: bv8,
                 b: bv8, b1: bv8, b2: bv8, b3: bv8, b4: bv8, b5: bv8, b6: bv8, b7: bv8)
    requires a1 == Xtime(a) && a2 == Xtime(a1) && a3 == Xtime(a2) && a4 == Xtime(a3)
    requires a5 == Xtime(a4) && a6 == Xtime(a5) && a7 == Xtime(a6)
    requires b1 == Half(b) && b2 == Half(b1) && b3 == Half(b2) && b4 == Half(b3)
    requires b5 == Half(b4) && b6 == Half(b5) && b7 == Half(b6)
    ensures Mul(a, b)
            == Add(IfLow(a, b), Add(IfLow(a1, b1), Add(IfLow(a2, b2), Add(IfLow(a3, b3),
                 Add(IfLow(a4, b4), Add(IfLow(a5, b5), Add(IfLow(a6, b6), Add(IfLow(a7, b7), 0))))))))
  {
    hide Add, Xtime, IfLow, Half;
    MulStep(a7, b7, 1);
    assert MulLow(Xtime(a7), Half(b7), 0) == 0;
    MulStep(a6, b6, 2);
    MulStep(a5, b5, 3);
    MulStep(a4, b4, 4);
    MulStep(a3, b3, 5);
    MulStep(a2, b2, 6);
    MulStep(a1, b1, 7);
    MulStep(a, b, 8);
  }

  lemma OneLeft(b: bv8)
    ensures Mul(1, b) == b
  {
    hide Add, Xtime, IfLow, Half;
    PowersOfX();
    var b1 := Half(b);
    var b2 := Half(b1);
    var b3 := Half(b2);
    var b4 := Half(b3);
    var b5 := Half(b4);
    var b6 := Half(b5);
    var b7 := Half(b6);
    BitsRebuild(b, b1, b2, b3, b4, b5, b6, b7);
    Unrolled(1, 2, 4, 8, 16, 32, 64, 128, b, b1, b2, b3, b4, b5, b6, b7);
  }

  lemma MulOfIf(c: bv8, a: bv8, b: bv8)
    ensures Mul(IfLow(c, a), b) == IfLow(Mul(c, b), a)
  {
    ZeroLeft(b, 8);
    hide Add, Xtime, Half, MulLow;
  }

  /** Multiplying a multiple of c by b is taking the same multiple of the product of c and b. */
  lemma {:induction false} ProductOfMultiple(c: bv8, a: bv8, b: bv8, n: nat)
    ensures Mul(MulLow(c, a, n), b) == MulLow(Mul(c, b), a, n)
    decreases n
  {
    hide Add, Xtime, IfLow, Half;
    ZeroLeft(b, 8);
    if n > 0 {
      LinearLeft(IfLow(c, a), MulLow(Xtime(c), Half(a), n - 1), b, 8);
      MulOfIf(c, a, b);
      ProductOfMultiple(Xtime(c), Half(a), b, n - 1);
      XtimeOfProduct(c, b, 8);
    }
  }

  lemma Commutes(a: bv8, b: bv8)
    ensures Mul(a, b) == Mul(b, a)
  {
    hide MulLow;
    OneLeft(a);
    OneLeft(b);
    ProductOfMultiple(1, a, b, 8);
  }

  lemma Associates(a: bv8, b: bv8, c: bv8)
    ensures Mul(Mul(a, b), c) == Mul(a, Mul(b, c))
  {
    hide MulLow;
    ProductOfMultiple(b, a, c, 8);
    Commutes(a, b);
    Commutes(a, Mul(b, c));
  }

  /** Bytes satisfy every law of the arithmetic the codes are proved over. */
  lemma BytesObeyLaws()
    ensures Laws(Bytes)
  {
    hide Add, Mul;
    forall a, b, c
      ensures LawsOn(Bytes, a, b, c)
    {
      MulLaws(a, b, c);
      AddLaws(a, b, c);
    }
  }

  lemma MulLaws(a: bv8, b: bv8, c: bv8)
    ensures Mul(a, b) == Mul(b, a) && Mul(Mul(a, b), c) == Mul(a, Mul(b, c))
    ensures Mul(a, Add(b, c)) == Add(Mul(a, b), Mul(a, c))
    ensures Mul(a, 1) == a && Mul(a, 0) == 0
  {
    hide Add, MulLow;
    Commutes(a, b);
    Associates(a, b, c);
    LinearRight(a, b, c, 8);
    OneLeft(a);
    Commutes(a, 1);
    ZeroLeft(a, 8);
    Commutes(a, 0);
  }

  // Division.

  predicate Shifted(a: bv8, next: bv8) { next == (a << 1) ^ (if a & 0x80 == 0 then 0 else 0x1D) }

  /** The sum is the rest, and a if the bit is set. */
  predicate Summed(sum: bv8, bit: bv8, a: bv8, rest: bv8) { sum == (if bit == 0 then 0 else a) ^ rest }

  /** The modulus is irreducible: no product of non-zero bytes is zero. */
  lemma BitsNotZero(a: bv8, a1: bv8, a2: bv8, a3: bv8, a4: bv8, a5: bv8, a6: bv8, a7: bv8, b: bv8,
                    c0: bv8, c1: bv8, c2: bv8, c3: bv8, c4: bv8, c5: bv8, c6: bv8, c7: bv8)
    requires a != 0 && b != 0
    requires a1 == (a << 1) ^ (if a & 0x80 == 0 then 0 else 0x1D)
    requires a2 == (a1 << 1) ^ (if a1 & 0x80 == 0 then 0 else 0x1D)
    requires a3 == (a2 << 1) ^ (if a2 & 0x80 == 0 then 0 else 0x1D)
    requires a4 == (a3 << 1) ^ (if a3 & 0x80 == 0 then 0 else 0x1D)
    requires a5 == (a4 << 1) ^ (if a4 & 0x80 == 0 then 0 else 0x1D)
    requires a6 == (a5 << 1) ^ (if a5 & 0x80 == 0 then 0 else 0x1D)
    requires a7 == (a6 << 1) ^ (if a6 & 0x80 == 0 then 0 else 0x1D)
    requires c0 == (if b & 1 == 0 then 0 else a) ^ c1
    requires c1 == (if b & 2 == 0 then 0 else a1) ^ c2
    requires c2 == (if b & 4 == 0 then 0 else a2) ^ c3
    requires c3 == (if b & 8 == 0 then 0 else a3) ^ c4
    requires c4 == (if b & 16 == 0 then 0 else a4) ^ c5
    requires c5 == (if b & 32 == 0 then 0 else a5) ^ c6
    requires c6 == (if b & 64 == 0 then 0 else a6) ^ c7
    requires c7 == (if b & 128 == 0 then 0 else a7)
    ensures c0 != 0
  {
  }

  lemma SumNotZero(a: bv8, a1: bv8, a2: bv8, a3: bv8, a4: bv8, a5: bv8, a6: bv8, a7: bv8, b: bv8,
                   c0: bv8, c1: bv8, c2: bv8, c3: bv8, c4: bv8, c5: bv8, c6: bv8, c7: bv8)
    requires a != 0 && b != 0
    requires Shifted(a, a1) && Shifted(a1, a2) && Shifted(a2, a3) && Shifted(a3, a4)
    requires Shifted(a4, a5) && Shifted(a5, a6) && Shifted(a6, a7)
    requires Summed(c0, b & 1, a, c1) && Summed(c1, b & 2, a1, c2) && Summed(c2, b & 4, a2, c3)
    requires Summed(c3, b & 8, a3, c4) && Summed(c4, b & 16, a4, c5) && Summed(c5, b & 32, a5, c6)
    requires Summed(c6, b & 64, a6, c7) && Summed(c7, b & 128, a7, 0)
    ensures c0 != 0
  {
    BitsNotZero(a, a1, a2, a3, a4, a5, a6, a7, b, c0, c1, c2, c3, c4, c5, c6, c7);
  }

  lemma BitsOf(b: bv8, b1: bv8, b2: bv8, b3: bv8, b4: bv8, b5: bv8, b6: bv8, b7: bv8)
    requires b1 == Half(b) && b2 == Half(b1) && b3 == Half(b2) && b4 == Half(b3)
    requires b5 == Half(b4) && b6 == Half(b5) && b7 == Half(b6)
    ensures (b1 & 1 == 0 <==> b & 2 == 0) && (b2 & 1 == 0 <==> b & 4 == 0) && (b3 & 1 == 0 <==> b & 8 == 0)
    ensures (b4 & 1 == 0 <==> b & 16 == 0) && (b5 & 1 == 0 <==> b & 32 == 0) && (b6 & 1 == 0 <==> b & 64 == 0)
    ensures b7 & 1 == 0 <==> b & 128 == 0
  {
  }

  lemma XtimeBits(a: bv8)
    ensures Shifted(a, Xtime(a))
  {
  }

  lemma TermBits(a: bv8, low: bv8, bit: bv8, rest: bv8)
    requires low & 1 == 0 <==> bit == 0
    ensures Summed(Add(IfLow(a, low), rest), bit, a, rest)
  {
  }

  lemma NoZeroDivisors(a: bv8, b: bv8)
    requires a != 0 && b != 0
    ensures Mul(a, b) != 0
  {
    hide Xtime, IfLow, Mul, Add, Half, Shifted, Summed;
    var a1, b1 := Xtime(a), Half(b);
    var a2, b2 := Xtime(a1), Half(b1);
    var a3, b3 := Xtime(a2), Half(b2);
    var a4, b4 := Xtime(a3), Half(b3);
    var a5, b5 := Xtime(a4), Half(b4);
    var a6, b6 := Xtime(a5), Half(b5);
    var a7, b7 := Xtime(a6), Half(b6);
    var c7 := Add(IfLow(a7, b7), 0);
    var c6 := Add(IfLow(a6, b6), c7);
    var c5 := Add(IfLow(a5, b5), c6);
    var c4 := Add(IfLow(a4, b4), c5);
    var c3 := Add(IfLow(a3, b3), c4);
    var c2 := Add(IfLow(a2, b2), c3);
    var c1 := Add(IfLow(a1, b1), c2);
    var c0 := Add(IfLow(a, b), c1);
    XtimeBits(a);
    XtimeBits(a1);
    XtimeBits(a2);
    XtimeBits(a3);
    XtimeBits(a4);
    XtimeBits(a5);
    XtimeBits(a6);
    BitsOf(b, b1, b2, b3, b4, b5, b6, b7);
    TermBits(a, b, b & 1, c1);
    TermBits(a1, b1, b & 2, c2);
    TermBits(a2, b2, b & 4, c3);
    TermBits(a3, b3, b & 8, c4);
    TermBits(a4, b4, b & 16, c5);
    TermBits(a5, b5, b & 32, c6);
    TermBits(a6, b6, b & 64, c7);
    TermBits(a7, b7, b & 128, 0);
    Unrolled(a, a1, a2, a3, a4, a5, a6, a7, b, b1, b2, b3, b4, b5, b6, b7);
    SumNotZero(a, a1, a2, a3, a4, a5, a6, a7, b, c0, c1, c2, c3, c4, c5, c6, c7);
  }

  lemma Cancels(a: bv8, b: bv8, c: bv8)
    requires a != 0 && Mul(a, b) == Mul(a, c)
    ensures b == c
  {
    hide Mul;
    MulLaws(a, b, c);
    AddLaws(Mul(a, b), 0, 0);
    if b != c {
      AddLaws(b, c, c);
      NoZeroDivisors(a, Add(b, c));
    }
  }

  /** The list with each element once. */
  function Once(s: seq<bv8>): seq<bv8> {
    if s == [] then []
    else
      var before, last := Once(s[..|s| - 1]), s[|s| - 1];
      if last in before then before else before + [last]
  }

  lemma {:induction false} OnceEach(s: seq<bv8>)
    ensures NoRepeats(Once(s)) && forall b :: b in s ==> b in Once(s)
  {
    if s != [] {
      var n := |s| - 1;
      OnceEach(s[..n]);
      assert s == s[..n] + [s[n]];
      if s[n] !in Once(s[..n]) {
        NoRepeatsConcat(Once(s[..n]), [s[n]]);
      }
    }
  }

  function Byte(i: nat): bv8
    requires i < 256
  {
    i as bv8
  }

  function AllBytes(): seq<bv8> { Once(seq(256, i requires 0 <= i < 256 => Byte(i))) }

  lemma AllBytesListed()
    ensures NoRepeats(AllBytes()) && forall b: bv8 :: b in AllBytes()
  {
    var all := seq(256, i requires 0 <= i < 256 => Byte(i));
    OnceEach(all);
    forall b: bv8
      ensures b in AllBytes()
    {
      assert Byte(b as int) == b && all[b as int] == b;
    }
  }

  /** Exactly the non-zero bytes can be divided by. */
  lemma InvertibleWhen(a: bv8)
    ensures (exists b :: Mul(a, b) == 1) <==> a != 0
  {
    hide Mul, AllBytes;
    if a == 0 {
      forall b
        ensures Mul(a, b) == 0
      {
        MulLaws(a, b, 0);
        MulLaws(b, 0, 0);
      }
    } else {
      AllBytesListed();
      var all := AllBytes();
      var multiples := seq(|all|, i requires 0 <= i < |all| => Mul(a, all[i]));
      forall i, j | 0 <= i < j < |all|
        ensures multiples[i] != multiples[j]
      {
        if Mul(a, all[i]) == Mul(a, all[j]) {
          Cancels(a, all[i], all[j]);
        }
      }
      FillsUp(multiples, all);
      assert (1 as bv8) in multiples;
    }
  }
}

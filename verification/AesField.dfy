/** Arithmetic in GF(2^8) with the polynomial x^8 + x^4 + x^3 + x + 1 (section 4.2 of FIPS 197). */
module AesField {

  function Xor(a: bv8, b: bv8): bv8 { a ^ b }

  /** Multiplication by x (section 4.2.1 of FIPS 197). */
  function Xtime(b: bv8): bv8 {
    (b << 1) ^ (if b & 0x80 == 0 then 0 else 0x1b)
  }

  function Pick(b: bv8, a: bv8): bv8 { if b & 1 == 0 then 0 else a }

  /** The product of `a` with the low `n` bits of `b`, lowest power first. */
  function MulBits(a: bv8, b: bv8, n: nat): bv8 {
    if n == 0 then 0 else Xor(Pick(b, a), Xtime(MulBits(a, b >> 1, n - 1)))
  }

  /** The product in GF(2^8). */
  function Mul(a: bv8, b: bv8): bv8 { MulBits(a, b, 8) }

  lemma XorLaws(a: bv8, b: bv8)
    ensures Xor(a, b) == Xor(b, a) && Xor(a, Xor(a, b)) == b && Xor(Xor(a, b), b) == a && Xor(a, 0) == a && Xor(0, a) == a && Xor(a, a) == 0
  {
  }

  lemma XorSwap(a: bv8, b: bv8, c: bv8, d: bv8)
    ensures Xor(Xor(a, b), Xor(c, d)) == Xor(Xor(a, c), Xor(b, d))
  {
    assert (a ^ b) ^ (c ^ d) == (a ^ c) ^ (b ^ d);
  }

  lemma XtimeAdds(a: bv8, b: bv8)
    ensures Xtime(Xor(a, b)) == Xor(Xtime(a), Xtime(b))
  {
    if a & 0x80 == 0 {
      if b & 0x80 == 0 {} else {}
    } else {
      if b & 0x80 == 0 {} else {}
    }
  }

  lemma PickAdds(b: bv8, a: bv8, c: bv8)
    ensures Pick(b, Xor(a, c)) == Xor(Pick(b, a), Pick(b, c))
    ensures Pick(b, Xtime(a)) == Xtime(Pick(b, a))
  {
  }

  lemma MulStep(a: bv8, b: bv8, n: nat)
    requires n > 0
    ensures MulBits(a, b, n) == Xor(Pick(b, a), Xtime(MulBits(a, b >> 1, n - 1)))
  {
    hide Xtime, Pick;
  }

  lemma MulNone(a: bv8, b: bv8)
    ensures MulBits(a, b, 0) == 0 && Xor(0, 0) == 0 && Xtime(0) == 0
  {
  }

  /** The product is additive in its first factor. */
  lemma {:induction false} MulBitsAdds(a: bv8, c: bv8, b: bv8, n: nat)
    ensures MulBits(Xor(a, c), b, n) == Xor(MulBits(a, b, n), MulBits(c, b, n))
  {
    hide *;
    if n == 0 {
      MulNone(a, b);
      MulNone(c, b);
      MulNone(Xor(a, c), b);
    } else {
      var p, q := MulBits(a, b >> 1, n - 1), MulBits(c, b >> 1, n - 1);
      MulStep(a, b, n);
      MulStep(c, b, n);
      MulStep(Xor(a, c), b, n);
      PickAdds(b, a, c);
      MulBitsAdds(a, c, b >> 1, n - 1);
      XtimeAdds(p, q);
      XorSwap(Pick(b, a), Pick(b, c), Xtime(p), Xtime(q));
    }
  }

  /** Doubling the first factor doubles the product. */
  lemma {:induction false} MulBitsXtime(a: bv8, b: bv8, n: nat)
    ensures MulBits(Xtime(a), b, n) == Xtime(MulBits(a, b, n))
  {
    hide *;
    if n == 0 {
      MulNone(a, b);
      MulNone(Xtime(a), b);
    } else {
      var p := MulBits(a, b >> 1, n - 1);
      MulStep(a, b, n);
      MulStep(Xtime(a), b, n);
      PickAdds(b, a, a);
      MulBitsXtime(a, b >> 1, n - 1);
      XtimeAdds(Pick(b, a), Xtime(p));
    }
  }

  /** The low four bits, added up one power at a time. */
  lemma MulOneLow(b: bv8)
    ensures MulBits(1, b, 4) == b & 0x0f
  {
    hide MulBits;
    MulStep(1, b, 4);
    MulStep(1, b >> 1, 3);
    MulStep(1, b >> 2, 2);
    MulStep(1, b >> 3, 1);
    MulNone(1, b >> 4);
  }

  lemma MulOneHigh(b: bv8, low: bv8)
    requires MulBits(1, b >> 4, 4) == low
    ensures Mul(1, b) == Xor(Pick(b, 1), Xtime(Xor(Pick(b >> 1, 1), Xtime(Xor(Pick(b >> 2, 1), Xtime(Xor(Pick(b >> 3, 1), Xtime(low))))))))
  {
    hide MulBits, Xtime, Pick, Xor;
    MulStep(1, b, 8);
    MulStep(1, b >> 1, 7);
    MulStep(1, b >> 2, 6);
    MulStep(1, b >> 3, 5);
  }

  /** 1 is neutral on the left. */
  lemma MulOne(b: bv8)
    ensures Mul(1, b) == b
  {
    hide MulBits, Mul;
    MulOneLow(b >> 4);
    MulOneHigh(b, b >> 4);
  }

  // ----- walking the nonzero elements

  /** The next element of the walk: multiplication by the constant 0x52. */
  function Next(x: bv8): bv8 {
    var x2 := Xtime(x);
    var x8 := Xtime(Xtime(x2));
    Xor(x2, Xtime(Xtime(Xtime(Xor(x8, x2)))))
  }

  /** Multiplication by 5, the inverse of 0x52. */
  function Times5(x: bv8): bv8 { Xor(x, Xtime(Xtime(x))) }

  lemma Times5Next(x: bv8)
    ensures Times5(Next(x)) == x
  {
  }

  lemma NextTimes5(x: bv8)
    ensures Next(Times5(x)) == x
  {
  }

  /** Multiplying by 5 commutes with any product. */
  lemma MulTimes5(x: bv8, y: bv8)
    ensures Mul(Times5(x), y) == Times5(Mul(x, y))
  {
    hide MulBits, Xtime, Xor;
    MulBitsXtime(x, y, 8);
    MulBitsXtime(Xtime(x), y, 8);
    MulBitsAdds(x, Xtime(Xtime(x)), y, 8);
  }

  function After(n: nat, x: bv8): bv8 { if n == 0 then x else Next(After(n - 1, x)) }

  function After5(n: nat, x: bv8): bv8 { if n == 0 then x else Times5(After5(n - 1, x)) }

  lemma {:induction false} After5Shift(n: nat, x: bv8)
    ensures After5(n + 1, x) == After5(n, Times5(x))
  {
    hide Times5;
    if n > 0 { After5Shift(n - 1, x); }
  }

  lemma {:induction false} After5After(n: nat, x: bv8)
    ensures After5(n, After(n, x)) == x
  {
    hide Next, Times5;
    if n > 0 {
      After5Shift(n - 1, After(n, x));
      Times5Next(After(n - 1, x));
      After5After(n - 1, x);
    }
  }

  lemma {:induction false} After5Add(m: nat, n: nat, x: bv8)
    ensures After5(m + n, x) == After5(m, After5(n, x))
  {
    hide Times5;
    if m > 0 { After5Add(m - 1, n, x); }
  }

  lemma {:induction false} MulAfter5(n: nat, x: bv8, y: bv8)
    ensures Mul(After5(n, x), y) == After5(n, Mul(x, y))
  {
    hide Times5, Mul;
    if n > 0 {
      MulAfter5(n - 1, x, y);
      MulTimes5(After5(n - 1, x), y);
    }
  }

  /** Steps add up as exponents do. */
  lemma PowersMultiply(m: nat, n: nat)
    ensures After5(m + n, 1) == Mul(After5(m, 1), After5(n, 1))
  {
    hide *;
    After5Add(m, n, 1);
    MulAfter5(m, 1, After5(n, 1));
    MulOne(After5(n, 1));
  }

  /** The two walks stay inverse to each other. */
  lemma WalksInverse(n: nat)
    ensures Mul(After5(n, 1), After(n, 1)) == 1
  {
    hide *;
    MulAfter5(n, 1, After(n, 1));
    MulOne(After(n, 1));
    After5After(n, 1);
  }
}

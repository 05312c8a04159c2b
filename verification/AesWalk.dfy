/** The table generator's walk visits every nonzero element of GF(2^8) once before it returns to 1. */
module AesWalk {
  import opened AesField

  // ----- a few powers of 5

  lemma Product(a: bv8, b: bv8)
    ensures Mul(a, b) ==
            Xor(Pick(b, a), Xtime(Xor(Pick(b >> 1, a), Xtime(Xor(Pick(b >> 2, a), Xtime(Xor(Pick(b >> 3, a),
            Xtime(Xor(Pick(b >> 4, a), Xtime(Xor(Pick(b >> 5, a), Xtime(Xor(Pick(b >> 6, a), Xtime(Pick(b >> 7, a)))))))))))))))
  {
    hide MulBits, Xtime, Pick, Xor;
    MulStep(a, b, 8);
    MulStep(a, b >> 1, 7);
    MulStep(a, b >> 2, 6);
    MulStep(a, b >> 3, 5);
    MulStep(a, b >> 4, 4);
    MulStep(a, b >> 5, 3);
    MulStep(a, b >> 6, 2);
    MulStep(a, b >> 7, 1);
    MulNone(a, b >> 8);
    XorLaws(Pick(b >> 7, a), 0);
  }

  /** A product of two given bytes. */
  function Value(a: bv8, b: bv8): bv8 {
    Xor(Pick(b, a), Xtime(Xor(Pick(b >> 1, a), Xtime(Xor(Pick(b >> 2, a), Xtime(Xor(Pick(b >> 3, a),
    Xtime(Xor(Pick(b >> 4, a), Xtime(Xor(Pick(b >> 5, a), Xtime(Xor(Pick(b >> 6, a), Xtime(Pick(b >> 7, a)))))))))))))))
  }

  lemma Values()
    ensures Value(0x05, 0x05) == 0x11 && Value(0x11, 0x05) == 0x55 && Value(0x55, 0x55) == 0xa1 && Value(0xa1, 0xa1) == 0xf7
    ensures Value(0xf7, 0x55) == 0x66 && Value(0x66, 0x11) == 0x5c && Value(0x5c, 0x5c) == 0xe0 && Value(0xe0, 0x5c) == 0x50
    ensures Value(0x50, 0xe0) == 0xbc && Value(0xbc, 0xbc) == 0xbd && Value(0xbd, 0xbc) == 0x01
  {
  }

  lemma PowerIs(m: nat, n: nat, a: bv8, b: bv8)
    requires After5(m, 1) == a && After5(n, 1) == b
    ensures After5(m + n, 1) == Value(a, b)
  {
    hide *;
    PowersMultiply(m, n);
    Product(a, b);
    ValueIs(a, b);
  }

  lemma ValueIs(a: bv8, b: bv8)
    ensures Value(a, b) ==
            Xor(Pick(b, a), Xtime(Xor(Pick(b >> 1, a), Xtime(Xor(Pick(b >> 2, a), Xtime(Xor(Pick(b >> 3, a),
            Xtime(Xor(Pick(b >> 4, a), Xtime(Xor(Pick(b >> 5, a), Xtime(Xor(Pick(b >> 6, a), Xtime(Pick(b >> 7, a)))))))))))))))
  {
    hide Xtime, Pick, Xor;
  }

  lemma FirstPower()
    ensures After5(1, 1) == 0x05
  {
    assert After5(0, 1) == 1;
  }

  /** The powers that decide the order of 5. */
  lemma SomePowers()
    ensures After5(255, 1) == 1
    ensures After5(15, 1) != 1 && After5(51, 1) != 1 && After5(85, 1) != 1
  {
    hide *;
    FirstPower();
    Values();
    PowerIs(1, 1, 0x05, 0x05);
    PowerIs(2, 1, 0x11, 0x05);
    PowerIs(3, 3, 0x55, 0x55);
    PowerIs(6, 6, 0xa1, 0xa1);
    PowerIs(12, 3, 0xf7, 0x55);
    PowerIs(15, 2, 0x66, 0x11);
    PowerIs(17, 17, 0x5c, 0x5c);
    PowerIs(34, 17, 0xe0, 0x5c);
    PowerIs(51, 34, 0x50, 0xe0);
    PowerIs(85, 85, 0xbc, 0xbc);
    PowerIs(170, 85, 0xbd, 0xbc);
  }

  // ----- the order of 5 is 255

  lemma {:induction false} Multiples(k: nat, q: nat, r: nat)
    requires After5(k, 1) == 1
    ensures After5(q * k + r, 1) == After5(r, 1)
    decreases q
  {
    hide After5;
    if q > 0 {
      Multiples(k, q - 1, r);
      assert q * k + r == ((q - 1) * k + r) + k;
      After5Add((q - 1) * k + r, k, 1);
    } else {
      assert 0 * k + r == r;
    }
  }

  /** A proper divisor of 255 divides 15, 51 or 85. */
  lemma ProperDivisors(k: nat)
    requires 0 < k < 255 && 255 % k == 0
    ensures 15 % k == 0 || 51 % k == 0 || 85 % k == 0
  {
    var q := 255 / k;
    assert q * k == 255;
    if k <= 15 {
      assert k == 1 || k == 2 || k == 3 || k == 4 || k == 5 || k == 6 || k == 7 || k == 8 || k == 9 || k == 10 || k == 11 || k == 12 ||
             k == 13 || k == 14 || k == 15;
    } else {
      Small(q, k);
      assert q == 3 || q == 5 || q == 15;
    }
  }

  lemma Bounded(q: nat, k: nat)
    requires q * k == 255 && 15 < k
    ensures q < 16
  {
    assert (q - 16) * k == 255 - 16 * k;
  }

  lemma Small(q: nat, k: nat)
    requires q * k == 255 && 15 < k < 255
    ensures q == 3 || q == 5 || q == 15
  {
    Bounded(q, k);
    assert q == 1 || q == 2 || q == 3 || q == 4 || q == 5 || q == 6 || q == 7 || q == 8 || q == 9 || q == 10 || q == 11 || q == 12 ||
           q == 13 || q == 14 || q == 15;
  }

  lemma {:induction false} Least(n: nat) returns (k: nat)
    requires 0 < n && After5(n, 1) == 1
    ensures 0 < k <= n && After5(k, 1) == 1
    ensures forall j :: 0 < j < k ==> After5(j, 1) != 1
    decreases n
  {
    hide After5;
    if j :| 0 < j < n && After5(j, 1) == 1 {
      k := Least(j);
    } else {
      k := n;
    }
  }

  lemma NoEarlyReturn(n: nat)
    requires 0 < n < 255
    ensures After5(n, 1) != 1
  {
    hide After5;
    SomePowers();
    if After5(n, 1) == 1 {
      var k := Least(n);
      var r := 255 % k;
      assert 255 == (255 / k) * k + r;
      Multiples(k, 255 / k, r);
      assert r == 0;
      ProperDivisors(k);
      if 15 % k == 0 {
        Returns(k, 15);
      } else if 51 % k == 0 {
        Returns(k, 51);
      } else {
        Returns(k, 85);
      }
    }
  }

  lemma Returns(k: nat, n: nat)
    requires k > 0 && After5(k, 1) == 1 && n % k == 0
    ensures After5(n, 1) == 1
  {
    hide After5;
    assert n == (n / k) * k + 0;
    Multiples(k, n / k, 0);
    assert After5(0, 1) == 1 by { Zero(); }
  }

  lemma Zero()
    ensures After5(0, 1) == 1
  {
  }

  // ----- the sequence of table rows

  /** The value of `x` in row `n` of the generator. */
  function Row(n: nat): bv8 { if n == 0 then 0 else After(n - 1, 1) }

  /** The value of `xi` in row `n`. */
  function RowInverse(n: nat): bv8 { if n == 0 then 0 else After5(n - 1, 1) }

  lemma {:induction false} NeverZero(n: nat)
    ensures After(n, 1) != 0 && After5(n, 1) != 0
  {
    hide Next, Times5;
    if n > 0 {
      NeverZero(n - 1);
      NonZeroStep(After(n - 1, 1));
      NonZeroStep(After5(n - 1, 1));
    }
  }

  lemma NonZeroStep(x: bv8)
    requires x != 0
    ensures Next(x) != 0 && Times5(x) != 0
  {
    hide Next, Times5;
    Times5Next(x);
    NextTimes5(x);
    ZeroSteps();
  }

  lemma ZeroSteps()
    ensures Next(0) == 0 && Times5(0) == 0
  {
  }

  lemma {:induction false} AfterAfter5(n: nat, x: bv8)
    ensures After(n, After5(n, x)) == x
  {
    hide Next, Times5;
    if n > 0 {
      AfterShift(n - 1, After5(n, x));
      NextTimes5(After5(n - 1, x));
      AfterAfter5(n - 1, x);
    }
  }

  lemma {:induction false} AfterShift(n: nat, x: bv8)
    ensures After(n + 1, x) == After(n, Next(x))
  {
    hide Next;
    if n > 0 { AfterShift(n - 1, x); }
  }

  /** No two of the first 256 rows have the same `x`, nor the same `xi`. */
  lemma RowsDiffer(m: nat, n: nat)
    requires m < n < 256
    ensures Row(m) != Row(n) && RowInverse(m) != RowInverse(n)
  {
    hide After, After5;
    NeverZero(n - 1);
    if m > 0 {
      var d := n - m;
      NoEarlyReturn(d);
      if After5(m - 1, 1) == After5(n - 1, 1) {
        After5Add(m - 1, d, 1);
        AfterAfter5(m - 1, 1);
        AfterAfter5(m - 1, After5(d, 1));
      }
      if After(m - 1, 1) == After(n - 1, 1) {
        After5After(n - 1, 1);
        After5Add(d, m - 1, After(m - 1, 1));
        After5After(m - 1, 1);
      }
    }
  }

  // ----- all bytes are covered

  lemma ByteInt(b: bv8, c: bv8)
    ensures 0 <= b as int < 256
    ensures b as int == c as int ==> b == c
  {
  }

  /** The numbers of the first `n` rows. */
  ghost function Numbers(n: nat): set<int> { set k: nat | k < n :: Row(k) as int }

  lemma {:induction false} NumbersSize(n: nat)
    requires n <= 256
    ensures |Numbers(n)| == n && forall v :: v in Numbers(n) ==> 0 <= v < 256
  {
    hide Row;
    if n == 0 {
      assert Numbers(0) == {};
    } else {
      NumbersSize(n - 1);
      var v := Row(n - 1) as int;
      forall k: nat | k < n - 1 ensures Row(k) as int != v {
        RowsDiffer(k, n - 1);
        ByteInt(Row(k), Row(n - 1));
      }
      assert Numbers(n) == Numbers(n - 1) + {v};
      ByteInt(Row(n - 1), 0);
    }
  }

  ghost function Below(n: nat): set<int> { if n == 0 then {} else Below(n - 1) + {n - 1} }

  lemma {:induction false} BelowMembers(n: nat)
    ensures |Below(n)| == n
    ensures forall v :: v in Below(n) <==> 0 <= v < n
  {
    if n > 0 { BelowMembers(n - 1); }
  }

  lemma FullSet(s: set<int>, n: nat)
    requires |s| == n && forall v :: v in s ==> 0 <= v < n
    ensures forall v :: 0 <= v < n ==> v in s
  {
    hide Below;
    BelowMembers(n);
    forall v | v in s ensures v in Below(n) {}
    if s != Below(n) { Smaller(s, Below(n)); }
  }

  lemma Smaller(a: set<int>, b: set<int>)
    requires a < b
    ensures |a| < |b|
  {
    assert b == a + (b - a);
  }

  /** Every byte is the `x` of exactly one of the 256 rows. */
  lemma EveryByte(b: bv8) returns (n: nat)
    ensures n < 256 && Row(n) == b
  {
    hide Row;
    NumbersSize(256);
    FullSet(Numbers(256), 256);
    ByteInt(b, b);
    assert b as int in Numbers(256);
    n :| n < 256 && Row(n) as int == b as int;
    ByteInt(Row(n), b);
  }
}

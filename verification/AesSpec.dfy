/** The block cipher as FIPS 197 describes it, on columns of bytes. */
module AesSpec {
  import opened AesField
  import opened AesWalk

  datatype Column = Column(b0: bv8, b1: bv8, b2: bv8, b3: bv8)

  datatype State = State(c0: Column, c1: Column, c2: Column, c3: Column)

  /** Which of the two ciphers: `Forward` encrypts, `Backward` decrypts. */
  datatype Direction = Forward | Backward

  // ----- SubBytes

  /** The multiplicative inverse in GF(2^8), with 0 sent to itself (section 5.1.1). */
  ghost function Inverse(b: bv8): (c: bv8)
    ensures if b == 0 then c == 0 else Mul(c, b) == 1
  {
    if b == 0 then 0 else
      HasInverse(b);
      var c: bv8 :| Mul(c, b) == 1; c
  }

  function Affine(b: bv8): bv8 {
    b ^ b.RotateLeft(1) ^ b.RotateLeft(2) ^ b.RotateLeft(3) ^ b.RotateLeft(4) ^ 0x63
  }

  function AffineInverse(b: bv8): bv8 {
    b.RotateLeft(1) ^ b.RotateLeft(3) ^ b.RotateLeft(6) ^ 0x05
  }

  ghost function Sub(b: bv8): bv8 { Affine(Inverse(b)) }

  ghost function InvSub(b: bv8): bv8 { Inverse(AffineInverse(b)) }

  ghost function SubByte(d: Direction, b: bv8): bv8 { if d.Forward? then Sub(b) else InvSub(b) }

  ghost function SubColumn(d: Direction, c: Column): Column {
    Column(SubByte(d, c.b0), SubByte(d, c.b1), SubByte(d, c.b2), SubByte(d, c.b3))
  }

  ghost function SubBytes(d: Direction, s: State): State {
    State(SubColumn(d, s.c0), SubColumn(d, s.c1), SubColumn(d, s.c2), SubColumn(d, s.c3))
  }

  // ----- ShiftRows

  /** Row r of the state moves r places to the left (section 5.1.2), or back (section 5.3.1). */
  function ShiftRows(d: Direction, s: State): State {
    if d.Forward? then
      State(Column(s.c0.b0, s.c1.b1, s.c2.b2, s.c3.b3), Column(s.c1.b0, s.c2.b1, s.c3.b2, s.c0.b3),
            Column(s.c2.b0, s.c3.b1, s.c0.b2, s.c1.b3), Column(s.c3.b0, s.c0.b1, s.c1.b2, s.c2.b3))
    else
      State(Column(s.c0.b0, s.c3.b1, s.c2.b2, s.c1.b3), Column(s.c1.b0, s.c0.b1, s.c3.b2, s.c2.b3),
            Column(s.c2.b0, s.c1.b1, s.c0.b2, s.c3.b3), Column(s.c3.b0, s.c2.b1, s.c1.b2, s.c0.b3))
  }

  // ----- MixColumns

  /** One byte of a product with a fixed polynomial. */
  function Dot(c: Column, p: bv8, q: bv8, r: bv8, t: bv8): bv8 {
    Xor(Xor(Mul(c.b0, p), Mul(c.b1, q)), Xor(Mul(c.b2, r), Mul(c.b3, t)))
  }

  /** Section 5.1.3, or its inverse in section 5.3.3. */
  function MixColumn(d: Direction, c: Column): Column {
    if d.Forward? then
      Column(Dot(c, 2, 3, 1, 1), Dot(c, 1, 2, 3, 1), Dot(c, 1, 1, 2, 3), Dot(c, 3, 1, 1, 2))
    else
      Column(Dot(c, 14, 11, 13, 9), Dot(c, 9, 14, 11, 13), Dot(c, 13, 9, 14, 11), Dot(c, 11, 13, 9, 14))
  }

  function MixColumns(d: Direction, s: State): State {
    State(MixColumn(d, s.c0), MixColumn(d, s.c1), MixColumn(d, s.c2), MixColumn(d, s.c3))
  }

  // ----- AddRoundKey

  function XorColumn(c: Column, k: Column): Column {
    Column(Xor(c.b0, k.b0), Xor(c.b1, k.b1), Xor(c.b2, k.b2), Xor(c.b3, k.b3))
  }

  function AddRoundKey(s: State, k: State): State {
    State(XorColumn(s.c0, k.c0), XorColumn(s.c1, k.c1), XorColumn(s.c2, k.c2), XorColumn(s.c3, k.c3))
  }

  // ----- the key expansion (section 5.2)

  function PowerOfTwo(n: nat): bv8 { if n == 0 then 1 else Xtime(PowerOfTwo(n - 1)) }

  function RotWord(c: Column): Column { Column(c.b1, c.b2, c.b3, c.b0) }

  /** Column `i` of the expanded key. */
  ghost function ExpandedKey(key: seq<Column>, i: nat): Column
    requires |key| > 0
  {
    if i < |key| then key[i] else
      var temp := ExpandedKey(key, i - 1);
      XorColumn(ExpandedKey(key, i - |key|),
                if i % |key| == 0 then XorColumn(SubColumn(Forward, RotWord(temp)), Column(PowerOfTwo(i / |key| - 1), 0, 0, 0))
                else if |key| > 6 && i % |key| == 4 then SubColumn(Forward, temp)
                else temp)
  }

  ghost function RoundKey(key: seq<Column>, round: nat): State
    requires |key| > 0
  {
    State(ExpandedKey(key, 4 * round), ExpandedKey(key, 4 * round + 1), ExpandedKey(key, 4 * round + 2), ExpandedKey(key, 4 * round + 3))
  }

  // ----- the two ciphers

  /** The state after the initial key addition and `n` full rounds of the cipher (section 5.1). */
  ghost function Rounds(key: seq<Column>, n: nat, s: State): State
    requires |key| > 0
  {
    if n == 0 then AddRoundKey(s, RoundKey(key, 0))
    else AddRoundKey(MixColumns(Forward, ShiftRows(Forward, SubBytes(Forward, Rounds(key, n - 1, s)))), RoundKey(key, n))
  }

  /** The cipher with one round more than `n` (section 5.1). */
  ghost function Cipher(key: seq<Column>, n: nat, s: State): State
    requires |key| > 0
  {
    AddRoundKey(ShiftRows(Forward, SubBytes(Forward, Rounds(key, n, s))), RoundKey(key, n + 1))
  }

  /** The state after `done` full rounds of the inverse cipher (section 5.3). */
  ghost function InvRounds(key: seq<Column>, n: nat, done: nat, s: State): State
    requires |key| > 0 && done <= n
  {
    if done == 0 then AddRoundKey(s, RoundKey(key, n + 1))
    else
      var t := InvRounds(key, n, done - 1, s);
      MixColumns(Backward, AddRoundKey(SubBytes(Backward, ShiftRows(Backward, t)), RoundKey(key, n + 1 - done)))
  }

  ghost function InvCipher(key: seq<Column>, n: nat, s: State): State
    requires |key| > 0
  {
    AddRoundKey(SubBytes(Backward, ShiftRows(Backward, InvRounds(key, n, n, s))), RoundKey(key, 0))
  }

  // ----- inverses in the field

  lemma RowNonZero(n: nat)
    requires n > 0
    ensures Row(n) != 0 && RowInverse(n) != 0 && Mul(RowInverse(n), Row(n)) == 1
  {
    hide After, After5, Mul;
    NeverZero(n - 1);
    WalksInverse(n - 1);
  }

  lemma HasInverse(b: bv8)
    requires b != 0
    ensures exists c: bv8 :: Mul(c, b) == 1
  {
    hide *;
    var n := EveryByte(b);
    if n == 0 { RowZero(); } else { RowNonZero(n); }
  }

  lemma RowZero()
    ensures Row(0) == 0 && RowInverse(0) == 0
  {
  }

  /** Every byte is the `xi` of one of the 256 rows. */
  lemma EveryInverse(c: bv8) returns (n: nat)
    requires c != 0
    ensures 0 < n < 256 && RowInverse(n) == c
  {
    hide Row, RowInverse, After, After5, Mul;
    var m := EveryByte(c);
    if m == 0 { RowZero(); }
    // c is After(m - 1, 1), and 255 steps of After5 lead from 1 back to 1.
    var k := m - 1;
    SomePowers();
    RowIs(m);
    if k == 0 {
      n := 1;
      RowIs(1);
      WalkStart();
    } else {
      After5Add(k, 255 - k, 1);
      AfterAfter5(k, 1);
      AfterAfter5(k, After5(255 - k, 1));
      n := 256 - k;
      RowIs(n);
    }
  }

  lemma RowIs(n: nat)
    requires n > 0
    ensures Row(n) == After(n - 1, 1) && RowInverse(n) == After5(n - 1, 1)
  {
  }

  lemma WalkStart()
    ensures After(0, 1) == 1 && After5(0, 1) == 1
  {
  }

  lemma MulZero(b: bv8)
    ensures Mul(0, b) == 0
  {
    hide MulBits, Xor;
    MulBitsAdds(0, 0, b, 8);
    XorLaws(0, 0);
    XorLaws(Mul(0, b), Mul(0, b));
  }

  /** Two bytes with product 1 stand in the same row. */
  lemma SameRow(c: bv8, b: bv8) returns (n: nat)
    requires Mul(c, b) == 1
    ensures 0 < n < 256 && c == RowInverse(n) && b == Row(n)
  {
    hide *;
    if c == 0 { MulZero(b); }
    n := EveryInverse(c);
    RowIs(n);
    MulAfter5(n - 1, 1, b);
    MulOne(b);
    AfterAfter5(n - 1, b);
  }

  /** A byte has one inverse only. */
  lemma InverseUnique(c: bv8, b: bv8)
    requires Mul(c, b) == 1
    ensures b != 0 && c == Inverse(b)
  {
    hide *;
    var m := SameRow(c, b);
    RowNonZero(m);
    var n := SameRow(Inverse(b), b);
    if m < n { RowsDiffer(m, n); }
    if n < m { RowsDiffer(n, m); }
  }

  lemma MulCommutes(a: bv8, b: bv8)
    requires a != 0 && b != 0
    ensures Mul(a, b) == Mul(b, a)
  {
    hide *;
    var m := EveryInverse(a);
    var n := EveryInverse(b);
    RowIs(m);
    RowIs(n);
    PowersMultiply(m - 1, n - 1);
    PowersMultiply(n - 1, m - 1);
  }

  /** Taking the inverse twice gives the byte back. */
  lemma InverseTwice(b: bv8)
    ensures Inverse(Inverse(b)) == b
  {
    hide *;
    var c := Inverse(b);
    if b != 0 {
      if c == 0 { MulZero(b); }
      MulCommutes(c, b);
      InverseUnique(b, c);
    } else {
      assert Inverse(0) == 0;
    }
  }

  lemma AffineInverts(b: bv8)
    ensures AffineInverse(Affine(b)) == b && Affine(AffineInverse(b)) == b
  {
  }

  /** The two substitutions undo each other. */
  lemma SubInverts(b: bv8)
    ensures InvSub(Sub(b)) == b && Sub(InvSub(b)) == b
  {
    hide Affine, AffineInverse, Inverse, Mul;
    AffineInverts(Inverse(b));
    InverseTwice(b);
    InverseTwice(AffineInverse(b));
    AffineInverts(b);
  }

  /** The inverse of the byte in a row is the other byte of the row. */
  lemma RowHasInverse(n: nat)
    ensures Inverse(Row(n)) == RowInverse(n)
  {
    hide *;
    if n == 0 {
      RowZero();
      assert Inverse(0) == 0;
    } else {
      RowNonZero(n);
      InverseUnique(RowInverse(n), Row(n));
    }
  }

  // ----- MixColumns is linear and invertible

  lemma DotAdds(c: Column, e: Column, p: bv8, q: bv8, r: bv8, t: bv8)
    ensures Dot(XorColumn(c, e), p, q, r, t) == Xor(Dot(c, p, q, r, t), Dot(e, p, q, r, t))
  {
    hide Mul, Xor;
    MulBitsAdds(c.b0, e.b0, p, 8);
    MulBitsAdds(c.b1, e.b1, q, 8);
    MulBitsAdds(c.b2, e.b2, r, 8);
    MulBitsAdds(c.b3, e.b3, t, 8);
    MulIs();
    var a0, a1, a2, a3 := Mul(c.b0, p), Mul(c.b1, q), Mul(c.b2, r), Mul(c.b3, t);
    var z0, z1, z2, z3 := Mul(e.b0, p), Mul(e.b1, q), Mul(e.b2, r), Mul(e.b3, t);
    XorSwap(a0, z0, a1, z1);
    XorSwap(a2, z2, a3, z3);
    XorSwap(Xor(a0, a1), Xor(z0, z1), Xor(a2, a3), Xor(z2, z3));
  }

  lemma MulIs()
    ensures forall a, b :: Mul(a, b) == MulBits(a, b, 8)
  {
    hide MulBits;
  }

  /** MixColumns distributes over the addition of columns, in both directions. */
  lemma MixAdds(d: Direction, c: Column, e: Column)
    ensures MixColumn(d, XorColumn(c, e)) == XorColumn(MixColumn(d, c), MixColumn(d, e))
  {
    hide Dot, Xor;
    if d.Forward? {
      DotAdds(c, e, 2, 3, 1, 1);
      DotAdds(c, e, 1, 2, 3, 1);
      DotAdds(c, e, 1, 1, 2, 3);
      DotAdds(c, e, 3, 1, 1, 2);
    } else {
      DotAdds(c, e, 14, 11, 13, 9);
      DotAdds(c, e, 9, 14, 11, 13);
      DotAdds(c, e, 13, 9, 14, 11);
      DotAdds(c, e, 11, 13, 9, 14);
    }
  }
}

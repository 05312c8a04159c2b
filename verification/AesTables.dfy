/** The lookup tables: their generation, and the meaning of what they hold. */
module AesTables {
  import opened AesField
  import opened AesWalk
  import opened AesSpec
  import opened AesInverse

  // ----- words as columns

  /** The bytes of a word, most significant first. */
  function Byte0(w: bv32): bv8 { (w >> 24) as bv8 }

  function Byte1(w: bv32): bv8 { ((w >> 16) & 0xff) as bv8 }

  function Byte2(w: bv32): bv8 { ((w >> 8) & 0xff) as bv8 }

  function Byte3(w: bv32): bv8 { (w & 0xff) as bv8 }

  function Col(w: bv32): Column { Column(Byte0(w), Byte1(w), Byte2(w), Byte3(w)) }

  function Join(b0: bv8, b1: bv8, b2: bv8, b3: bv8): bv32 {
    (b0 as bv32 << 24) | (b1 as bv32 << 16) | (b2 as bv32 << 8) | b3 as bv32
  }

  lemma ColJoin(b0: bv8, b1: bv8, b2: bv8, b3: bv8)
    ensures Col(Join(b0, b1, b2, b3)) == Column(b0, b1, b2, b3)
  {
  }

  lemma JoinCol(w: bv32)
    ensures Join(Byte0(w), Byte1(w), Byte2(w), Byte3(w)) == w
  {
  }

  /** A word is determined by its bytes. */
  lemma ColInjective(v: bv32, w: bv32)
    requires Col(v) == Col(w)
    ensures v == w
  {
    hide Byte0, Byte1, Byte2, Byte3, Join;
    JoinCol(v);
    JoinCol(w);
  }

  function Xor32(v: bv32, w: bv32): bv32 { v ^ w }

  lemma Byte0Xor(v: bv32, w: bv32)
    ensures Byte0(Xor32(v, w)) == Xor(Byte0(v), Byte0(w))
  {
  }

  lemma Byte1Xor(v: bv32, w: bv32)
    ensures Byte1(Xor32(v, w)) == Xor(Byte1(v), Byte1(w))
  {
  }

  lemma Byte2Xor(v: bv32, w: bv32)
    ensures Byte2(Xor32(v, w)) == Xor(Byte2(v), Byte2(w))
  {
  }

  lemma Byte3Xor(v: bv32, w: bv32)
    ensures Byte3(Xor32(v, w)) == Xor(Byte3(v), Byte3(w))
  {
  }

  lemma ColXor(v: bv32, w: bv32)
    ensures Col(Xor32(v, w)) == XorColumn(Col(v), Col(w))
  {
    hide Byte0, Byte1, Byte2, Byte3, Xor32, Xor;
    Byte0Xor(v, w);
    Byte1Xor(v, w);
    Byte2Xor(v, w);
    Byte3Xor(v, w);
  }

  /** Rotations of a word to the left. */
  function Rotate24(w: bv32): bv32 { (w << 24) | (w >> 8) }

  function Rotate16(w: bv32): bv32 { (w << 16) | (w >> 16) }

  function Rotate8(w: bv32): bv32 { (w << 8) | (w >> 24) }

  lemma ColRotates(w: bv32)
    ensures Col(Rotate24(w)) == Turn(Col(w))
    ensures Col(Rotate16(w)) == Turn(Turn(Col(w)))
    ensures Col(Rotate8(w)) == Turn(Turn(Turn(Col(w)))) == RotWord(Col(w))
  {
  }

  // ----- what a set of tables holds

  /** The position of a byte in a table. */
  function Index(b: bv8): nat { b as nat }

  lemma IndexInjective(b: bv8, c: bv8)
    requires Index(b) == Index(c)
    ensures b == c
  {
  }

  datatype Tables = Tables(
    mix0: map<nat, bv32>,
    mix1: map<nat, bv32>,
    mix2: map<nat, bv32>,
    mix3: map<nat, bv32>,
    sbox: map<nat, bv8>)

  /** What a table column for byte `b` has to be, before its rotation. */
  ghost function Entry(d: Direction, b: bv8): Column { MixColumn(d, Unit(SubByte(d, b))) }

  /** Every entry present is right: substitution, and substitution followed by MixColumns of one byte of the column. */
  ghost predicate RightAt(d: Direction, t: Tables, b: bv8) {
    && (Index(b) in t.sbox ==> t.sbox[Index(b)] == SubByte(d, b))
    && (Index(b) in t.mix0 ==> Col(t.mix0[Index(b)]) == Entry(d, b))
    && (Index(b) in t.mix1 ==> Col(t.mix1[Index(b)]) == Turn(Entry(d, b)))
    && (Index(b) in t.mix2 ==> Col(t.mix2[Index(b)]) == Turn(Turn(Entry(d, b))))
    && (Index(b) in t.mix3 ==> Col(t.mix3[Index(b)]) == Turn(Turn(Turn(Entry(d, b)))))
  }

  ghost predicate Right(d: Direction, t: Tables) { forall b :: RightAt(d, t, b) }

  predicate Has(t: Tables, b: bv8) {
    Index(b) in t.sbox && Index(b) in t.mix0 && Index(b) in t.mix1 && Index(b) in t.mix2 && Index(b) in t.mix3
  }

  ghost predicate Complete(d: Direction, t: Tables) { Right(d, t) && forall b :: Has(t, b) }

  function With(t: Tables, b: bv8, w: bv32, s: bv8): Tables {
    var i := Index(b);
    Tables(t.mix0[i := Rotate24(w)], t.mix1[i := Rotate16(w)], t.mix2[i := Rotate8(w)], t.mix3[i := w], t.sbox[i := s])
  }

  lemma FourTurns(c: Column)
    ensures Turn(Turn(Turn(Turn(c)))) == c
  {
  }

  lemma WithRight(d: Direction, t: Tables, b: bv8, w: bv32, s: bv8)
    requires Right(d, t) && s == SubByte(d, b) && Turn(Col(w)) == Entry(d, b)
    ensures Right(d, With(t, b, w, s))
    ensures Has(With(t, b, w, s), b) && forall c :: Has(t, c) ==> Has(With(t, b, w, s), c)
  {
    hide Entry, SubByte, Col, Turn, Rotate24, Rotate16, Rotate8, Index;
    ColRotates(w);
    FourTurns(Col(w));
    forall c ensures RightAt(d, With(t, b, w, s), c) {
      assert RightAt(d, t, c);
      if Index(c) == Index(b) { IndexInjective(b, c); }
    }
  }

  // ----- one row of the tables

  /** The substitution as the generator computes it, in twelve bits folded to eight. */
  function Folded(xi: bv8): bv8 {
    var sx: bv16 := xi as bv16 ^ (xi as bv16 << 1) ^ (xi as bv16 << 2) ^ (xi as bv16 << 3) ^ (xi as bv16 << 4);
    (((sx >> 8) ^ (sx & 0xff) ^ 0x63) & 0xff) as bv8
  }

  lemma FoldedIsAffine(xi: bv8)
    ensures Folded(xi) == Affine(xi)
  {
  }

  lemma Twice(b: bv8)
    ensures (b as bv32) * 0x101 == Join(0, 0, b, b)
  {
  }

  lemma Apart(b: bv8)
    ensures (b as bv32) * 0x10001 == Join(0, b, 0, b)
  {
  }

  lemma Thrice(b: bv8)
    ensures (b as bv32) * 0x1010100 == Join(b, b, b, 0)
  {
  }

  lemma FourTimes(b: bv8)
    ensures (b as bv32) * 0x1010101 == Join(b, b, b, b)
  {
  }

  lemma JoinXor(v: bv32, w: bv32, c: Column, e: Column)
    requires v == Join(c.b0, c.b1, c.b2, c.b3) && w == Join(e.b0, e.b1, e.b2, e.b3)
    ensures Col(Xor32(v, w)) == XorColumn(c, e)
  {
    hide *;
    ColXor(v, w);
    ColJoin(c.b0, c.b1, c.b2, c.b3);
    ColJoin(e.b0, e.b1, e.b2, e.b3);
  }

  /** The word that goes into the encryption tables, from a byte and its double. */
  function MixWord(s2: bv8, s: bv8): bv32 { Xor32((s2 as bv32) * 0x101, (s as bv32) * 0x1010100) }

  lemma MixWordIs(s: bv8)
    ensures Turn(Col(MixWord(Xtime(s), s))) == MixColumn(Forward, Unit(s))
  {
    hide Mul, Xtime, Xor, Col, MixColumn, Join, Xor32;
    Twice(Xtime(s));
    Thrice(s);
    JoinXor((Xtime(s) as bv32) * 0x101, (s as bv32) * 0x1010100, Column(0, 0, Xtime(s), Xtime(s)), Column(s, s, s, 0));
    MixUnit(Forward, s);
    SmallFactors(s);
    XorLaws(s, 0);
    XorLaws(Xtime(s), 0);
    XorLaws(Xtime(s), s);
  }

  /** The word that goes into the decryption tables, from a byte and its doubles. */
  function InvMixWord(x8: bv8, x4: bv8, x2: bv8, x: bv8): bv32 {
    Xor32(Xor32(Xor32((x8 as bv32) * 0x1010101, (x4 as bv32) * 0x10001), (x2 as bv32) * 0x101), (x as bv32) * 0x1010100)
  }

  lemma InvMixWordCol(x8: bv8, x4: bv8, x2: bv8, x: bv8)
    ensures Col(InvMixWord(x8, x4, x2, x)) ==
            XorColumn(XorColumn(XorColumn(Column(x8, x8, x8, x8), Column(0, x4, 0, x4)), Column(0, 0, x2, x2)), Column(x, x, x, 0))
  {
    hide Xor, Col, Join, Xor32;
    var a, b, c, d := (x8 as bv32) * 0x1010101, (x4 as bv32) * 0x10001, (x2 as bv32) * 0x101, (x as bv32) * 0x1010100;
    FourTimes(x8);
    Apart(x4);
    Twice(x2);
    Thrice(x);
    JoinXor(a, b, Column(x8, x8, x8, x8), Column(0, x4, 0, x4));
    ColXor(Xor32(a, b), c);
    ColXor(Xor32(Xor32(a, b), c), d);
    ColJoin(0, 0, x2, x2);
    ColJoin(x, x, x, 0);
  }

  lemma InvBytes(x: bv8)
    ensures var x2, x4, x8 := Xtime(x), Xtime(Xtime(x)), Xtime(Xtime(Xtime(x)));
            && By14(x) == Xor(Xor(Xor(x8, x4), x2), 0) && By9(x) == Xor(Xor(Xor(x8, 0), 0), x)
            && By13(x) == Xor(Xor(Xor(x8, x4), 0), x) && By11(x) == Xor(Xor(Xor(x8, 0), x2), x)
  {
  }

  lemma InvMixWordIs(x: bv8)
    ensures Turn(Col(InvMixWord(Xtime(Xtime(Xtime(x))), Xtime(Xtime(x)), Xtime(x), x))) == MixColumn(Backward, Unit(x))
  {
    hide Mul, Xtime, Xor, Col, MixColumn, InvMixWord, By9, By11, By13, By14;
    InvMixWordCol(Xtime(Xtime(Xtime(x))), Xtime(Xtime(x)), Xtime(x), x);
    MixUnit(Backward, x);
    SmallFactors(x);
    InvBytes(x);
  }
}

/** The inverse cipher undoes the cipher, layer by layer and then round by round. */
module AesInverse {
  import opened AesField
  import opened AesWalk
  import opened AesSpec

  function Opposite(d: Direction): Direction { if d.Forward? then Backward else Forward }

  // ----- MixColumns

  function By3(b: bv8): bv8 { Xor(b, Xtime(b)) }

  function By9(b: bv8): bv8 { Xor(b, Xtime(Xtime(Xtime(b)))) }

  function By11(b: bv8): bv8 { Xor(b, Xtime(Xor(b, Xtime(Xtime(b))))) }

  function By13(b: bv8): bv8 { Xor(b, Xtime(Xtime(Xor(b, Xtime(b))))) }

  function By14(b: bv8): bv8 { Xtime(Xor(b, Xtime(Xor(b, Xtime(b))))) }

  /** Products with the bytes that MixColumns uses. */
  lemma SmallFactors(b: bv8)
    ensures Mul(b, 1) == b && Mul(b, 2) == Xtime(b) && Mul(b, 3) == By3(b)
    ensures Mul(b, 9) == By9(b) && Mul(b, 11) == By11(b) && Mul(b, 13) == By13(b) && Mul(b, 14) == By14(b)
  {
    hide *;
    Factor(b, 1);
    Factor(b, 2);
    Factor(b, 3);
    Factor(b, 9);
    Factor(b, 11);
    Factor(b, 13);
    Factor(b, 14);
    LowValues(b);
    HighValues(b);
  }

  lemma Factor(b: bv8, k: bv8)
    ensures Mul(b, k) == Value(b, k)
  {
    hide *;
    Product(b, k);
    ValueIs(b, k);
  }

  lemma LowValues(b: bv8)
    ensures Value(b, 1) == b && Value(b, 2) == Xtime(b) && Value(b, 3) == By3(b) && Value(b, 9) == By9(b)
  {
  }

  lemma HighValues(b: bv8)
    ensures Value(b, 11) == By11(b) && Value(b, 13) == By13(b) && Value(b, 14) == By14(b)
  {
  }

  /** The product of the two matrices, first column: decryption after encryption. */
  lemma BackwardForward(b: bv8)
    ensures Xor(Xor(By14(Xtime(b)), By11(b)), Xor(By13(b), By9(By3(b)))) == b
    ensures Xor(Xor(By9(Xtime(b)), By14(b)), Xor(By11(b), By13(By3(b)))) == 0
    ensures Xor(Xor(By13(Xtime(b)), By9(b)), Xor(By14(b), By11(By3(b)))) == 0
    ensures Xor(Xor(By11(Xtime(b)), By13(b)), Xor(By9(b), By14(By3(b)))) == 0
  {
  }

  /** The product the other way round. */
  lemma ForwardBackward(b: bv8)
    ensures Xor(Xor(Xtime(By14(b)), By3(By9(b))), Xor(By13(b), By11(b))) == b
    ensures Xor(Xor(By14(b), Xtime(By9(b))), Xor(By3(By13(b)), By11(b))) == 0
    ensures Xor(Xor(By14(b), By9(b)), Xor(Xtime(By13(b)), By3(By11(b)))) == 0
    ensures Xor(Xor(By3(By14(b)), By9(b)), Xor(By13(b), Xtime(By11(b)))) == 0
  {
  }

  function Turn(c: Column): Column { Column(c.b3, c.b0, c.b1, c.b2) }

  lemma XorTurn(a: bv8, b: bv8, c: bv8, d: bv8)
    ensures Xor(Xor(a, b), Xor(c, d)) == Xor(Xor(b, c), Xor(d, a))
  {
    hide *;
    XorLaws(a, b);
    XorLaws(a, d);
    XorSwap(b, a, c, d);
  }

  lemma DotTurn(c: Column, p: bv8, q: bv8, r: bv8, t: bv8)
    ensures Dot(Turn(c), p, q, r, t) == Dot(c, q, r, t, p)
  {
    hide Mul, Xor;
    XorTurn(Mul(c.b3, p), Mul(c.b0, q), Mul(c.b1, r), Mul(c.b2, t));
  }

  lemma MixTurn(d: Direction, c: Column)
    ensures MixColumn(d, Turn(c)) == Turn(MixColumn(d, c))
  {
    hide Dot;
    if d.Forward? {
      DotTurn(c, 2, 3, 1, 1);
      DotTurn(c, 1, 2, 3, 1);
      DotTurn(c, 1, 1, 2, 3);
      DotTurn(c, 3, 1, 1, 2);
    } else {
      DotTurn(c, 14, 11, 13, 9);
      DotTurn(c, 9, 14, 11, 13);
      DotTurn(c, 13, 9, 14, 11);
      DotTurn(c, 11, 13, 9, 14);
    }
  }

  function Unit(b: bv8): Column { Column(b, 0, 0, 0) }

  /** The image of a column with one byte set. */
  lemma MixUnit(d: Direction, b: bv8)
    ensures MixColumn(d, Unit(b)) == if d.Forward? then Column(Mul(b, 2), b, b, Mul(b, 3)) else Column(Mul(b, 14), Mul(b, 9), Mul(b, 13), Mul(b, 11))
  {
    hide Mul, Xor;
    UnitDot(b, 1);
    UnitDot(b, 2);
    UnitDot(b, 3);
    UnitDot(b, 9);
    UnitDot(b, 11);
    UnitDot(b, 13);
    UnitDot(b, 14);
    SmallFactors(b);
  }

  lemma UnitDot(b: bv8, p: bv8)
    ensures forall q, r, t :: Dot(Unit(b), p, q, r, t) == Mul(b, p)
  {
    hide Mul, Xor;
    XorLaws(0, 0);
    XorLaws(Mul(b, p), 0);
    forall q, r, t ensures Dot(Unit(b), p, q, r, t) == Mul(b, p) {
      MulZero(q);
      MulZero(r);
      MulZero(t);
    }
  }

  lemma UndoUnit(d: Direction, b: bv8)
    ensures MixColumn(Opposite(d), MixColumn(d, Unit(b))) == Unit(b)
  {
    hide Mul, Xor, Xtime, By3, By9, By11, By13, By14;
    MixUnit(d, b);
    SmallFactors(b);
    if d.Forward? {
      SmallFactors(Xtime(b));
      SmallFactors(By3(b));
      BackwardForward(b);
    } else {
      SmallFactors(By14(b));
      SmallFactors(By9(b));
      SmallFactors(By13(b));
      SmallFactors(By11(b));
      ForwardBackward(b);
    }
  }

  lemma UndoTurn(d: Direction, c: Column)
    requires MixColumn(Opposite(d), MixColumn(d, c)) == c
    ensures MixColumn(Opposite(d), MixColumn(d, Turn(c))) == Turn(c)
  {
    hide MixColumn;
    MixTurn(d, c);
    MixTurn(Opposite(d), MixColumn(d, c));
  }

  lemma UndoAdds(d: Direction, c: Column, e: Column)
    requires MixColumn(Opposite(d), MixColumn(d, c)) == c && MixColumn(Opposite(d), MixColumn(d, e)) == e
    ensures MixColumn(Opposite(d), MixColumn(d, XorColumn(c, e))) == XorColumn(c, e)
  {
    hide MixColumn, XorColumn;
    MixAdds(d, c, e);
    MixAdds(Opposite(d), MixColumn(d, c), MixColumn(d, e));
  }

  /** Each MixColumns undoes the other. */
  lemma MixInverts(d: Direction, c: Column)
    ensures MixColumn(Opposite(d), MixColumn(d, c)) == c
  {
    hide MixColumn, Xor;
    UndoUnit(d, c.b0);
    UndoUnit(d, c.b1);
    UndoTurn(d, Unit(c.b1));
    UndoUnit(d, c.b2);
    UndoTurn(d, Unit(c.b2));
    UndoTurn(d, Turn(Unit(c.b2)));
    UndoUnit(d, c.b3);
    UndoTurn(d, Unit(c.b3));
    UndoTurn(d, Turn(Unit(c.b3)));
    UndoTurn(d, Turn(Turn(Unit(c.b3))));
    UndoAdds(d, Unit(c.b0), Turn(Unit(c.b1)));
    UndoAdds(d, Turn(Turn(Unit(c.b2))), Turn(Turn(Turn(Unit(c.b3)))));
    UndoAdds(d, XorColumn(Unit(c.b0), Turn(Unit(c.b1))), XorColumn(Turn(Turn(Unit(c.b2))), Turn(Turn(Turn(Unit(c.b3))))));
    Halves(c);
  }

  /** A column is the sum of four columns with one byte each. */
  lemma Halves(c: Column)
    ensures c == XorColumn(XorColumn(Unit(c.b0), Turn(Unit(c.b1))), XorColumn(Turn(Turn(Unit(c.b2))), Turn(Turn(Turn(Unit(c.b3))))))
  {
    hide Xor;
    XorLaws(c.b0, 0);
    XorLaws(c.b1, 0);
    XorLaws(c.b2, 0);
    XorLaws(c.b3, 0);
    XorLaws(0, 0);
  }

  // ----- the other layers

  lemma ColumnTwice(c: Column, k: Column)
    ensures XorColumn(XorColumn(c, k), k) == c
  {
    hide Xor;
    XorLaws(c.b0, k.b0);
    XorLaws(c.b1, k.b1);
    XorLaws(c.b2, k.b2);
    XorLaws(c.b3, k.b3);
  }

  lemma AddTwice(s: State, k: State)
    ensures AddRoundKey(AddRoundKey(s, k), k) == s
  {
    hide XorColumn;
    ColumnTwice(s.c0, k.c0);
    ColumnTwice(s.c1, k.c1);
    ColumnTwice(s.c2, k.c2);
    ColumnTwice(s.c3, k.c3);
  }

  lemma MixesInvert(d: Direction, s: State)
    ensures MixColumns(Opposite(d), MixColumns(d, s)) == s
  {
    hide MixColumn;
    MixInverts(d, s.c0);
    MixInverts(d, s.c1);
    MixInverts(d, s.c2);
    MixInverts(d, s.c3);
  }

  lemma SubColumnInverts(c: Column)
    ensures SubColumn(Backward, SubColumn(Forward, c)) == c && SubColumn(Forward, SubColumn(Backward, c)) == c
  {
    hide Sub, InvSub;
    SubInverts(c.b0);
    SubInverts(c.b1);
    SubInverts(c.b2);
    SubInverts(c.b3);
  }

  /** Substitution and shift undo each other, and commute. */
  lemma SubShiftInverts(s: State)
    ensures SubBytes(Backward, ShiftRows(Backward, ShiftRows(Forward, SubBytes(Forward, s)))) == s
    ensures ShiftRows(Forward, SubBytes(Forward, SubBytes(Backward, ShiftRows(Backward, s)))) == s
  {
    hide SubColumn;
    SubColumnInverts(s.c0);
    SubColumnInverts(s.c1);
    SubColumnInverts(s.c2);
    SubColumnInverts(s.c3);
    var t := ShiftRows(Backward, s);
    SubColumnInverts(t.c0);
    SubColumnInverts(t.c1);
    SubColumnInverts(t.c2);
    SubColumnInverts(t.c3);
  }

  // ----- the ciphers

  /** The inverse cipher passes through the states of the cipher in reverse. */
  lemma {:induction false} Retraces(key: seq<Column>, n: nat, done: nat, s: State)
    requires |key| > 0 && done <= n
    ensures InvRounds(key, n, done, Cipher(key, n, s)) == ShiftRows(Forward, SubBytes(Forward, Rounds(key, n - done, s)))
  {
    hide ShiftRows, SubBytes, MixColumns, AddRoundKey, RoundKey;
    if done == 0 {
      AddTwice(ShiftRows(Forward, SubBytes(Forward, Rounds(key, n, s))), RoundKey(key, n + 1));
    } else {
      Retraces(key, n, done - 1, s);
      var before := Rounds(key, n - done, s);
      SubShiftInverts(Rounds(key, n - done + 1, s));
      AddTwice(MixColumns(Forward, ShiftRows(Forward, SubBytes(Forward, before))), RoundKey(key, n + 1 - done));
      MixesInvert(Forward, ShiftRows(Forward, SubBytes(Forward, before)));
    }
  }

  /** Decryption restores every block, whatever the key and the number of rounds. */
  lemma InvCipherRestores(key: seq<Column>, n: nat, s: State)
    requires |key| > 0
    ensures InvCipher(key, n, Cipher(key, n, s)) == s
  {
    hide ShiftRows, SubBytes, MixColumns, AddRoundKey, RoundKey;
    Retraces(key, n, n, s);
    SubShiftInverts(Rounds(key, 0, s));
    AddTwice(s, RoundKey(key, 0));
  }

  lemma {:induction false} Replays(key: seq<Column>, n: nat, done: nat, s: State)
    requires |key| > 0 && done <= n
    ensures ShiftRows(Forward, SubBytes(Forward, Rounds(key, done, InvCipher(key, n, s)))) == InvRounds(key, n, n - done, s)
  {
    hide ShiftRows, SubBytes, MixColumns, AddRoundKey, RoundKey;
    if done == 0 {
      var t := InvRounds(key, n, n, s);
      AddTwice(SubBytes(Backward, ShiftRows(Backward, t)), RoundKey(key, 0));
      SubShiftInverts(t);
    } else {
      Replays(key, n, done - 1, s);
      var t := InvRounds(key, n, n - done, s);
      var u := AddRoundKey(SubBytes(Backward, ShiftRows(Backward, t)), RoundKey(key, done));
      assert InvRounds(key, n, n - done + 1, s) == MixColumns(Backward, u);
      MixesInvert(Backward, u);
      AddTwice(SubBytes(Backward, ShiftRows(Backward, t)), RoundKey(key, done));
      SubShiftInverts(t);
    }
  }

  /** Encrypting a decrypted block restores it too. */
  lemma CipherRestores(key: seq<Column>, n: nat, s: State)
    requires |key| > 0
    ensures Cipher(key, n, InvCipher(key, n, s)) == s
  {
    hide ShiftRows, SubBytes, MixColumns, AddRoundKey, RoundKey;
    Replays(key, n, n, s);
    AddTwice(s, RoundKey(key, n + 1));
  }
}

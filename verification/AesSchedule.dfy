/** The table-driven cipher on an arbitrary key schedule, and the two schedules that make it the ciphers of FIPS 197. */
module AesSchedule {
  import opened AesField
  import opened AesSpec
  import opened AesInverse
  import opened AesTables

  // ----- the cipher on a schedule of words

  function KeyState(schedule: seq<bv32>, round: nat): State
    requires 4 * round + 4 <= |schedule|
  {
    State(Col(schedule[4 * round]), Col(schedule[4 * round + 1]), Col(schedule[4 * round + 2]), Col(schedule[4 * round + 3]))
  }

  /** The state after `n` rounds: both directions shift rows the same way. */
  ghost function CryptRounds(d: Direction, schedule: seq<bv32>, n: nat, s: State): State
    requires 4 * n + 4 <= |schedule|
  {
    if n == 0 then AddRoundKey(s, KeyState(schedule, 0))
    else AddRoundKey(MixColumns(d, ShiftRows(Forward, SubBytes(d, CryptRounds(d, schedule, n - 1, s)))), KeyState(schedule, n))
  }

  ghost function Crypt(d: Direction, schedule: seq<bv32>, nRounds: nat, s: State): State
    requires nRounds > 0 && 4 * nRounds + 4 <= |schedule|
  {
    AddRoundKey(ShiftRows(Forward, SubBytes(d, CryptRounds(d, schedule, nRounds - 1, s))), KeyState(schedule, nRounds))
  }

  // ----- encryption

  /** Every word of the schedule is the expanded key's. */
  ghost predicate Expands(key: seq<Column>, schedule: seq<bv32>)
    requires |key| > 0
  {
    forall i: nat :: i < |schedule| ==> Col(schedule[i]) == ExpandedKey(key, i)
  }

  lemma RoundKeyIs(key: seq<Column>, schedule: seq<bv32>, round: nat)
    requires |key| > 0 && Expands(key, schedule) && 4 * round + 4 <= |schedule|
    ensures KeyState(schedule, round) == RoundKey(key, round)
  {
    hide Col, ExpandedKey;
  }

  lemma {:induction false} CryptRoundsForward(key: seq<Column>, schedule: seq<bv32>, n: nat, s: State)
    requires |key| > 0 && Expands(key, schedule) && 4 * n + 4 <= |schedule|
    ensures CryptRounds(Forward, schedule, n, s) == Rounds(key, n, s)
  {
    hide Expands, KeyState, RoundKey, AddRoundKey, MixColumns, ShiftRows, SubBytes;
    RoundKeyIs(key, schedule, n);
    if n > 0 { CryptRoundsForward(key, schedule, n - 1, s); }
  }

  /** On the expanded key, the forward tables compute the cipher of section 5.1. */
  lemma CryptForward(key: seq<Column>, schedule: seq<bv32>, nRounds: nat, s: State)
    requires |key| > 0 && Expands(key, schedule) && nRounds > 0 && 4 * nRounds + 4 <= |schedule|
    ensures Crypt(Forward, schedule, nRounds, s) == Cipher(key, nRounds - 1, s)
  {
    hide Expands, KeyState, RoundKey, AddRoundKey, MixColumns, ShiftRows, SubBytes, CryptRounds, Rounds;
    RoundKeyIs(key, schedule, nRounds);
    CryptRoundsForward(key, schedule, nRounds - 1, s);
  }

  // ----- decryption

  /** Second and fourth columns exchanged. */
  function Swap(s: State): State { State(s.c0, s.c3, s.c2, s.c1) }

  /** The round keys in reverse, columns exchanged, with InvMixColumns applied to all but the outermost two. */
  ghost function InverseKey(key: seq<Column>, nRounds: nat, round: nat): State
    requires |key| > 0 && round <= nRounds
  {
    var k := RoundKey(key, nRounds - round);
    Swap(if 0 < round < nRounds then MixColumns(Backward, k) else k)
  }

  ghost predicate Inverts(key: seq<Column>, nRounds: nat, schedule: seq<bv32>)
    requires |key| > 0
  {
    |schedule| == 4 * nRounds + 4 && forall round: nat :: round <= nRounds ==> KeyState(schedule, round) == InverseKey(key, nRounds, round)
  }

  /** Shifting rows left between two exchanges of columns shifts them right. */
  lemma SwapShift(d: Direction, s: State)
    ensures ShiftRows(Forward, SubBytes(d, Swap(s))) == Swap(SubBytes(d, ShiftRows(Backward, s)))
  {
    hide SubByte;
  }

  lemma SwapAdd(s: State, k: State)
    ensures AddRoundKey(Swap(s), Swap(k)) == Swap(AddRoundKey(s, k))
  {
    hide XorColumn;
  }

  lemma SwapMix(d: Direction, s: State)
    ensures MixColumns(d, Swap(s)) == Swap(MixColumns(d, s))
  {
    hide MixColumn;
  }

  lemma MixesAdd(d: Direction, s: State, k: State)
    ensures MixColumns(d, AddRoundKey(s, k)) == AddRoundKey(MixColumns(d, s), MixColumns(d, k))
  {
    hide MixColumn, XorColumn;
    MixAdds(d, s.c0, k.c0);
    MixAdds(d, s.c1, k.c1);
    MixAdds(d, s.c2, k.c2);
    MixAdds(d, s.c3, k.c3);
  }

  /** One round on exchanged columns is one round of the inverse cipher. */
  lemma SwappedRound(t: State, k: State)
    ensures AddRoundKey(MixColumns(Backward, ShiftRows(Forward, SubBytes(Backward, Swap(t)))), Swap(MixColumns(Backward, k))) ==
            Swap(MixColumns(Backward, AddRoundKey(SubBytes(Backward, ShiftRows(Backward, t)), k)))
  {
    hide *;
    var u := SubBytes(Backward, ShiftRows(Backward, t));
    SwapShift(Backward, t);
    SwapMix(Backward, u);
    SwapAdd(MixColumns(Backward, u), MixColumns(Backward, k));
    MixesAdd(Backward, u, k);
  }

  lemma {:induction false} CryptRoundsBackward(key: seq<Column>, schedule: seq<bv32>, nRounds: nat, n: nat, s: State)
    requires |key| > 0 && n < nRounds && Inverts(key, nRounds, schedule)
    ensures CryptRounds(Backward, schedule, n, Swap(s)) == Swap(InvRounds(key, nRounds - 1, n, s))
  {
    hide KeyState, RoundKey, AddRoundKey, MixColumns, ShiftRows, SubBytes, Swap;
    assert KeyState(schedule, n) == InverseKey(key, nRounds, n);
    if n == 0 {
      SwapAdd(s, RoundKey(key, nRounds));
    } else {
      CryptRoundsBackward(key, schedule, nRounds, n - 1, s);
      SwappedRound(InvRounds(key, nRounds - 1, n - 1, s), RoundKey(key, nRounds - n));
    }
  }

  /** On the inverse schedule and exchanged columns, the backward tables compute the inverse cipher of section 5.3. */
  lemma CryptBackward(key: seq<Column>, schedule: seq<bv32>, nRounds: nat, s: State)
    requires |key| > 0 && nRounds > 0 && Inverts(key, nRounds, schedule)
    ensures Swap(Crypt(Backward, schedule, nRounds, Swap(s))) == InvCipher(key, nRounds - 1, s)
  {
    hide KeyState, RoundKey, AddRoundKey, MixColumns, ShiftRows, SubBytes, CryptRounds, InvRounds, Swap;
    assert KeyState(schedule, nRounds) == InverseKey(key, nRounds, nRounds);
    CryptRoundsBackward(key, schedule, nRounds, nRounds - 1, s);
    var t := InvRounds(key, nRounds - 1, nRounds - 1, s);
    SwapShift(Backward, t);
    SwapAdd(SubBytes(Backward, ShiftRows(Backward, t)), RoundKey(key, 0));
    SwapTwice(InvCipher(key, nRounds - 1, s));
  }

  lemma SwapTwice(s: State)
    ensures Swap(Swap(s)) == s
  {
  }

  // ----- table lookups

  lemma ColumnSums(a: Column, b: Column, c: Column, e: Column)
    ensures XorColumn(XorColumn(XorColumn(a, b), c), e) == XorColumn(XorColumn(a, b), XorColumn(c, e))
  {
    hide Xor;
    XorSums(a.b0, b.b0, c.b0, e.b0);
    XorSums(a.b1, b.b1, c.b1, e.b1);
    XorSums(a.b2, b.b2, c.b2, e.b2);
    XorSums(a.b3, b.b3, c.b3, e.b3);
  }

  lemma XorSums(a: bv8, b: bv8, c: bv8, e: bv8)
    ensures Xor(Xor(Xor(a, b), c), e) == Xor(Xor(a, b), Xor(c, e))
  {
    hide *;
    XorAssociates(Xor(a, b), c, e);
  }

  lemma XorAssociates(a: bv8, b: bv8, c: bv8)
    ensures Xor(Xor(a, b), c) == Xor(a, Xor(b, c))
  {
  }

  /** The images of four one-byte columns add up to the image of the column. */
  lemma MixOfSum(d: Direction, c: Column)
    ensures XorColumn(XorColumn(XorColumn(MixColumn(d, Unit(c.b0)), Turn(MixColumn(d, Unit(c.b1)))), Turn(Turn(MixColumn(d, Unit(c.b2))))),
                      Turn(Turn(Turn(MixColumn(d, Unit(c.b3)))))) == MixColumn(d, c)
  {
    hide MixColumn, XorColumn, Unit, Turn;
    var u0, u1, u2, u3 := Unit(c.b0), Turn(Unit(c.b1)), Turn(Turn(Unit(c.b2))), Turn(Turn(Turn(Unit(c.b3))));
    MixTurn(d, Unit(c.b1));
    MixTurn(d, Unit(c.b2));
    MixTurn(d, Turn(Unit(c.b2)));
    MixTurn(d, Unit(c.b3));
    MixTurn(d, Turn(Unit(c.b3)));
    MixTurn(d, Turn(Turn(Unit(c.b3))));
    ColumnSums(MixColumn(d, u0), MixColumn(d, u1), MixColumn(d, u2), MixColumn(d, u3));
    MixAdds(d, u0, u1);
    MixAdds(d, u2, u3);
    MixAdds(d, XorColumn(u0, u1), XorColumn(u2, u3));
    Halves(c);
  }

  lemma EntryAt(d: Direction, t: Tables, b: bv8)
    requires Complete(d, t)
    ensures Has(t, b) && t.sbox[Index(b)] == SubByte(d, b)
    ensures Col(t.mix0[Index(b)]) == MixColumn(d, Unit(SubByte(d, b)))
    ensures Col(t.mix1[Index(b)]) == Turn(MixColumn(d, Unit(SubByte(d, b))))
    ensures Col(t.mix2[Index(b)]) == Turn(Turn(MixColumn(d, Unit(SubByte(d, b)))))
    ensures Col(t.mix3[Index(b)]) == Turn(Turn(Turn(MixColumn(d, Unit(SubByte(d, b))))))
  {
    hide Col, SubByte, MixColumn, Turn, Unit, Index;
    assert Has(t, b);
    assert RightAt(d, t, b);
  }

  /** The four lookups of one output word of a round. */
  function Lookup(t: Tables, b0: bv8, b1: bv8, b2: bv8, b3: bv8): bv32
    requires Has(t, b0) && Has(t, b1) && Has(t, b2) && Has(t, b3)
  {
    Xor32(Xor32(Xor32(t.mix0[Index(b0)], t.mix1[Index(b1)]), t.mix2[Index(b2)]), t.mix3[Index(b3)])
  }

  /** Four lookups substitute and mix one column. */
  lemma LookupMixes(d: Direction, t: Tables, c: Column)
    requires Complete(d, t)
    ensures Has(t, c.b0) && Has(t, c.b1) && Has(t, c.b2) && Has(t, c.b3)
    ensures Col(Lookup(t, c.b0, c.b1, c.b2, c.b3)) == MixColumn(d, SubColumn(d, c))
  {
    hide Col, SubByte, MixColumn, Turn, Unit, Xor32, Index, XorColumn, Complete;
    EntryAt(d, t, c.b0);
    EntryAt(d, t, c.b1);
    EntryAt(d, t, c.b2);
    EntryAt(d, t, c.b3);
    var w0, w1, w2, w3 := t.mix0[Index(c.b0)], t.mix1[Index(c.b1)], t.mix2[Index(c.b2)], t.mix3[Index(c.b3)];
    ColXor(w0, w1);
    ColXor(Xor32(w0, w1), w2);
    ColXor(Xor32(Xor32(w0, w1), w2), w3);
    MixOfSum(d, SubColumn(d, c));
  }

  /** The substitution of the four bytes of a word. */
  function SubWord(t: Tables, b0: bv8, b1: bv8, b2: bv8, b3: bv8): bv32
    requires Has(t, b0) && Has(t, b1) && Has(t, b2) && Has(t, b3)
  {
    Join(t.sbox[Index(b0)], t.sbox[Index(b1)], t.sbox[Index(b2)], t.sbox[Index(b3)])
  }

  lemma SubWordIs(d: Direction, t: Tables, c: Column)
    requires Complete(d, t)
    ensures Has(t, c.b0) && Has(t, c.b1) && Has(t, c.b2) && Has(t, c.b3)
    ensures Col(SubWord(t, c.b0, c.b1, c.b2, c.b3)) == SubColumn(d, c)
  {
    hide Col, SubByte, MixColumn, Turn, Unit, Index, Join, Complete;
    EntryAt(d, t, c.b0);
    EntryAt(d, t, c.b1);
    EntryAt(d, t, c.b2);
    EntryAt(d, t, c.b3);
    ColJoin(t.sbox[Index(c.b0)], t.sbox[Index(c.b1)], t.sbox[Index(c.b2)], t.sbox[Index(c.b3)]);
  }
}

/** The AES object: key schedules, and encryption and decryption of a block in place. */
module AesCipher {
  import opened AesField
  import opened AesSpec
  import opened AesInverse
  import opened AesTables
  import opened AesGenerate
  import opened AesSchedule

  const RCON: seq<bv32> := [0x00, 0x01, 0x02, 0x04, 0x08, 0x10, 0x20, 0x40, 0x80, 0x1b, 0x36]

  lemma PowersOfTwo()
    ensures PowerOfTwo(0) == 0x01 && PowerOfTwo(1) == 0x02 && PowerOfTwo(2) == 0x04 && PowerOfTwo(3) == 0x08 && PowerOfTwo(4) == 0x10
    ensures PowerOfTwo(5) == 0x20 && PowerOfTwo(6) == 0x40 && PowerOfTwo(7) == 0x80 && PowerOfTwo(8) == 0x1b && PowerOfTwo(9) == 0x36
  {
    assert PowerOfTwo(3) == 0x08 && PowerOfTwo(6) == 0x40;
  }

  /** The table of round constants holds the powers of x (section 5.2). */
  lemma RconIs(j: nat)
    requires 1 <= j <= 10
    ensures Col(RCON[j] << 24) == Column(PowerOfTwo(j - 1), 0, 0, 0)
  {
    hide PowerOfTwo;
    PowersOfTwo();
    if j <= 3 {
      assert j == 1 || j == 2 || j == 3;
    } else if j <= 6 {
      assert j == 4 || j == 5 || j == 6;
    } else {
      assert j == 7 || j == 8 || j == 9 || j == 10;
    }
  }

  /** The key as columns. */
  ghost function KeyColumns(words: seq<bv32>, keySize: nat): (key: seq<Column>)
    requires keySize <= |words|
    ensures |key| == keySize && forall i: nat :: i < keySize ==> key[i] == Col(words[i])
  {
    seq(keySize, i requires 0 <= i < keySize => Col(words[i]))
  }

  /** The four words of a block in memory. */
  function Block(m: seq<bv32>, offset: nat): State
    requires offset + 4 <= |m|
  {
    State(Col(m[offset]), Col(m[offset + 1]), Col(m[offset + 2]), Col(m[offset + 3]))
  }

  // ----- one row of the key schedules

  /** The row before, as the expansion transforms it for row `i`. */
  ghost function Temp(key: seq<Column>, i: nat): Column
    requires 0 < |key| <= i
  {
    var temp := ExpandedKey(key, i - 1);
    if i % |key| == 0 then XorColumn(SubColumn(Forward, RotWord(temp)), Column(PowerOfTwo(i / |key| - 1), 0, 0, 0))
    else if |key| > 6 && i % |key| == 4 then SubColumn(Forward, temp)
    else temp
  }

  lemma NextScheduleRow(key: seq<Column>, schedule: seq<bv32>, t: bv32)
    requires 0 < |key| <= |schedule| && Expands(key, schedule)
    requires Col(t) == Temp(key, |schedule|)
    ensures Expands(key, schedule + [Xor32(schedule[|schedule| - |key|], t)])
  {
    hide Col, SubColumn, XorColumn, RotWord, PowerOfTwo, Xor32;
    var i := |schedule|;
    ColXor(schedule[i - |key|], t);
    assert Col(schedule[i - |key|]) == ExpandedKey(key, i - |key|);
  }

  /** Which row of the schedule row `i` of the inverse schedule is made from. */
  function SourceRow(nRounds: nat, i: nat): nat
    requires i < 4 * nRounds + 4
  {
    if i % 4 != 0 then 4 * nRounds + 4 - i else 4 * nRounds + 4 - i - 4
  }

  function Part(s: State, j: nat): Column
    requires j < 4
  {
    if j == 0 then s.c0 else if j == 1 then s.c1 else if j == 2 then s.c2 else s.c3
  }

  ghost function InverseRow(key: seq<Column>, nRounds: nat, i: nat): Column
    requires |key| > 0 && i < 4 * nRounds + 4
  {
    Part(InverseKey(key, nRounds, i / 4), i % 4)
  }

  /** The index arithmetic of the inverse schedule reverses the round keys and exchanges their columns. */
  lemma InverseRowIs(key: seq<Column>, nRounds: nat, i: nat)
    requires |key| > 0 && i < 4 * nRounds + 4
    ensures var c := ExpandedKey(key, SourceRow(nRounds, i));
            InverseRow(key, nRounds, i) == if i < 4 || 4 * nRounds + 4 - i <= 4 then c else MixColumn(Backward, c)
  {
    hide MixColumn, ExpandedKey;
    var g, j := i / 4, i % 4;
    assert i == 4 * g + j;
    var row := 4 * (nRounds - g) + if j == 0 then 0 else 4 - j;
    assert SourceRow(nRounds, i) == row;
    assert InverseKey(key, nRounds, g) == Swap(if 0 < g < nRounds then MixColumns(Backward, RoundKey(key, nRounds - g)) else RoundKey(key, nRounds - g));
  }

  lemma RowOfRound(key: seq<Column>, nRounds: nat, round: nat, j: nat)
    requires |key| > 0 && round <= nRounds && j < 4
    ensures InverseRow(key, nRounds, 4 * round + j) == Part(InverseKey(key, nRounds, round), j)
  {
    hide InverseKey, Part;
    assert (4 * round + j) / 4 == round && (4 * round + j) % 4 == j;
  }

  lemma RoundInverts(key: seq<Column>, nRounds: nat, inverse: seq<bv32>, round: nat)
    requires |key| > 0 && |inverse| == 4 * nRounds + 4 && round <= nRounds
    requires forall i: nat :: i < |inverse| ==> Col(inverse[i]) == InverseRow(key, nRounds, i)
    ensures KeyState(inverse, round) == InverseKey(key, nRounds, round)
  {
    hide Col, InverseKey, InverseRow;
    RowOfRound(key, nRounds, round, 0);
    RowOfRound(key, nRounds, round, 1);
    RowOfRound(key, nRounds, round, 2);
    RowOfRound(key, nRounds, round, 3);
  }

  lemma InvertsIs(key: seq<Column>, nRounds: nat, inverse: seq<bv32>)
    requires |key| > 0 && |inverse| == 4 * nRounds + 4
    requires forall i: nat :: i < |inverse| ==> Col(inverse[i]) == InverseRow(key, nRounds, i)
    ensures Inverts(key, nRounds, inverse)
  {
    hide Col, InverseKey, InverseRow, KeyState;
    forall round: nat | round <= nRounds ensures KeyState(inverse, round) == InverseKey(key, nRounds, round) {
      RoundInverts(key, nRounds, inverse, round);
    }
  }

  lemma BytesPresent(d: Direction, t: Tables)
    requires Complete(d, t)
    ensures forall b :: Has(t, b)
  {
    hide Right, Has;
  }

  /** Substituting the bytes first makes the backward tables apply InvMixColumns alone. */
  lemma LookupInverse(forward: Tables, backward: Tables, c: Column)
    requires Complete(Forward, forward) && Complete(Backward, backward)
    ensures Has(forward, c.b0) && Has(forward, c.b1) && Has(forward, c.b2) && Has(forward, c.b3)
    ensures forall b :: Has(backward, b)
    ensures Col(Lookup(backward, forward.sbox[Index(c.b0)], forward.sbox[Index(c.b1)], forward.sbox[Index(c.b2)], forward.sbox[Index(c.b3)])) ==
            MixColumn(Backward, c)
  {
    hide Col, MixColumn, Lookup, Complete, Index, SubByte, Unit, Turn;
    EntryAt(Forward, forward, c.b0);
    EntryAt(Forward, forward, c.b1);
    EntryAt(Forward, forward, c.b2);
    EntryAt(Forward, forward, c.b3);
    BytesPresent(Backward, backward);
    LookupMixes(Backward, backward, SubColumn(Forward, c));
    SubColumnInverts(c);
  }

  class AES {
    const forward: Tables
    const backward: Tables
    var nRounds: nat
    var keySchedule: seq<bv32>
    var invKeySchedule: seq<bv32>

    constructor ()
      ensures Complete(Forward, forward) && Complete(Backward, backward)
    {
      var f, b := Generate();
      forward := f;
      backward := b;
      nRounds := 0;
      keySchedule := [];
      invKeySchedule := [];
    }

    /** Both schedules belong to the key. */
    ghost predicate Keyed(key: seq<Column>)
      reads this
    {
      && Complete(Forward, forward) && Complete(Backward, backward)
      && |key| > 0 && nRounds == |key| + 6 && |keySchedule| == 4 * nRounds + 4
      && Expands(key, keySchedule) && Inverts(key, nRounds, invKeySchedule)
    }

    /** The key schedule is the expanded key of section 5.2. */
    method ComputeKeySchedule(keyWords: seq<bv32>, keySize: nat)
      requires Complete(Forward, forward)
      requires (keySize == 4 || keySize == 6 || keySize == 8) && keySize <= |keyWords| && nRounds == keySize + 6
      modifies `keySchedule
      ensures |keySchedule| == 4 * nRounds + 4 && Expands(KeyColumns(keyWords, keySize), keySchedule)
    {
      hide Complete, Col, ExpandedKey, SubColumn, XorColumn, Rotate8, Xor32, SubWord, RotWord, PowerOfTwo, Byte0, Byte1, Byte2, Byte3;
      ghost var key := KeyColumns(keyWords, keySize);
      BytesPresent(Forward, forward);
      var ksRows := (nRounds + 1) * 4;
      keySchedule := [];
      for ksRow := 0 to ksRows
        invariant |keySchedule| == ksRow && Expands(key, keySchedule)
      {
        if ksRow < keySize {
          keySchedule := keySchedule + [keyWords[ksRow]];
          FirstRows(key, ksRow);
        } else {
          var t := keySchedule[ksRow - 1];
          if ksRow % keySize == 0 {
            ColRotates(t);
            t := Rotate8(t);
            SubWordIs(Forward, forward, Col(t));
            ColIs(t);
            t := SubWord(forward, Byte0(t), Byte1(t), Byte2(t), Byte3(t));
            RconIndex(ksRow, keySize);
            RconIs(ksRow / keySize);
            ColXor(t, RCON[ksRow / keySize] << 24);
            t := Xor32(t, RCON[ksRow / keySize] << 24);
          } else if keySize > 6 && ksRow % keySize == 4 {
            SubWordIs(Forward, forward, Col(t));
            ColIs(t);
            t := SubWord(forward, Byte0(t), Byte1(t), Byte2(t), Byte3(t));
          }
          NextScheduleRow(key, keySchedule, t);
          keySchedule := keySchedule + [Xor32(keySchedule[ksRow - keySize], t)];
        }
      }
    }

    /** The inverse schedule holds the round keys in reverse, exchanged and, but for the outermost, mixed (section 5.3.5). */
    method ComputeInvKeySchedule(ghost key: seq<Column>)
      requires Complete(Forward, forward) && Complete(Backward, backward)
      requires |key| > 0 && |keySchedule| == 4 * nRounds + 4 && Expands(key, keySchedule)
      modifies `invKeySchedule
      ensures Inverts(key, nRounds, invKeySchedule)
    {
      hide Complete, Col, ExpandedKey, MixColumn, Lookup, InverseRow, Inverts, Byte0, Byte1, Byte2, Byte3;
      var ksRows := (nRounds + 1) * 4;
      invKeySchedule := [];
      for invKsRow := 0 to ksRows
        invariant |invKeySchedule| == invKsRow
        invariant forall i: nat :: i < invKsRow ==> Col(invKeySchedule[i]) == InverseRow(key, nRounds, i)
      {
        var ksRow := ksRows - invKsRow;
        var t: bv32;
        if invKsRow % 4 != 0 {
          t := keySchedule[ksRow];
        } else {
          t := keySchedule[ksRow - 4];
        }
        InverseRowIs(key, nRounds, invKsRow);
        if invKsRow < 4 || ksRow <= 4 {
          invKeySchedule := invKeySchedule + [t];
        } else {
          LookupInverse(forward, backward, Col(t));
          ColIs(t);
          invKeySchedule := invKeySchedule +
            [Lookup(backward, forward.sbox[Index(Byte0(t))], forward.sbox[Index(Byte1(t))], forward.sbox[Index(Byte2(t))], forward.sbox[Index(Byte3(t))])];
        }
      }
      InvertsIs(key, nRounds, invKeySchedule);
    }

    /** Derives both schedules from a key of 16, 24 or 32 bytes. */
    method DoReset(keyWords: seq<bv32>, sigBytes: nat)
      requires Complete(Forward, forward) && Complete(Backward, backward)
      requires (sigBytes == 16 || sigBytes == 24 || sigBytes == 32) && sigBytes / 4 <= |keyWords|
      modifies this
      ensures Keyed(KeyColumns(keyWords, sigBytes / 4))
    {
      hide Complete, Expands, Inverts;
      var keySize := sigBytes / 4;
      nRounds := keySize + 6;
      ComputeKeySchedule(keyWords, keySize);
      ComputeInvKeySchedule(KeyColumns(keyWords, keySize));
    }

    /** Writes four words into the block at `offset`. */
    static method Store(m: array<bv32>, offset: nat, w: Words)
      requires offset + 4 <= m.Length
      modifies m
      ensures Block(m[..], offset) == StateOf(w)
      ensures m[..offset] == old(m[..offset]) && m[offset + 4..] == old(m[offset + 4..])
    {
      hide Col;
      m[offset] := w.w0;
      m[offset + 1] := w.w1;
      m[offset + 2] := w.w2;
      m[offset + 3] := w.w3;
    }

    /** Exchanges the second and the fourth word of the block at `offset`. */
    static method SwapWords(m: array<bv32>, offset: nat)
      requires offset + 4 <= m.Length
      modifies m
      ensures Block(m[..], offset) == Swap(Block(old(m[..]), offset))
      ensures m[..offset] == old(m[..offset]) && m[offset + 4..] == old(m[offset + 4..])
    {
      hide Col;
      var t := m[offset + 1];
      m[offset + 1] := m[offset + 3];
      m[offset + 3] := t;
    }

    /** Runs all rounds on four words of `m`, with the tables and the schedule of one direction. */
    method DoCryptBlock(m: array<bv32>, offset: nat, schedule: seq<bv32>, ghost d: Direction, t: Tables)
      requires Complete(d, t) && nRounds > 0 && |schedule| == 4 * nRounds + 4 && offset + 4 <= m.Length
      modifies m
      ensures Block(m[..], offset) == Crypt(d, schedule, nRounds, Block(old(m[..]), offset))
      ensures m[..offset] == old(m[..offset]) && m[offset + 4..] == old(m[offset + 4..])
    {
      hide Complete, Col, Lookup, SubWord, Xor32, CryptRounds, Crypt, Byte0, Byte1, Byte2, Byte3, StateOf, KeyState, AddRoundKey, ShiftRows, SubBytes, MixColumns;
      ghost var before := Block(m[..], offset);
      BlockIs(m[..], offset);
      BytesPresent(d, t);
      var s0 := Xor32(m[offset], schedule[0]);
      var s1 := Xor32(m[offset + 1], schedule[1]);
      var s2 := Xor32(m[offset + 2], schedule[2]);
      var s3 := Xor32(m[offset + 3], schedule[3]);
      FirstState(d, schedule, Words(m[offset], m[offset + 1], m[offset + 2], m[offset + 3]));
      var ksRow := 4;
      for round := 1 to nRounds
        invariant ksRow == 4 * round && m[..] == old(m[..])
        invariant StateOf(Words(s0, s1, s2, s3)) == CryptRounds(d, schedule, round - 1, before)
      {
        var t0 := Xor32(Lookup(t, Byte0(s0), Byte1(s1), Byte2(s2), Byte3(s3)), schedule[ksRow]);
        var t1 := Xor32(Lookup(t, Byte0(s1), Byte1(s2), Byte2(s3), Byte3(s0)), schedule[ksRow + 1]);
        var t2 := Xor32(Lookup(t, Byte0(s2), Byte1(s3), Byte2(s0), Byte3(s1)), schedule[ksRow + 2]);
        var t3 := Xor32(Lookup(t, Byte0(s3), Byte1(s0), Byte2(s1), Byte3(s2)), schedule[ksRow + 3]);
        FullRound(d, t, Words(s0, s1, s2, s3), Words(schedule[ksRow], schedule[ksRow + 1], schedule[ksRow + 2], schedule[ksRow + 3]));
        KeyWords(schedule, round);
        RoundStep(d, schedule, round, before);
        ksRow := ksRow + 4;
        s0, s1, s2, s3 := t0, t1, t2, t3;
      }
      var t0 := Xor32(SubWord(t, Byte0(s0), Byte1(s1), Byte2(s2), Byte3(s3)), schedule[ksRow]);
      var t1 := Xor32(SubWord(t, Byte0(s1), Byte1(s2), Byte2(s3), Byte3(s0)), schedule[ksRow + 1]);
      var t2 := Xor32(SubWord(t, Byte0(s2), Byte1(s3), Byte2(s0), Byte3(s1)), schedule[ksRow + 2]);
      var t3 := Xor32(SubWord(t, Byte0(s3), Byte1(s0), Byte2(s1), Byte3(s2)), schedule[ksRow + 3]);
      LastRound(d, t, Words(s0, s1, s2, s3), Words(schedule[ksRow], schedule[ksRow + 1], schedule[ksRow + 2], schedule[ksRow + 3]));
      KeyWords(schedule, nRounds);
      LastStep(d, schedule, nRounds, before);
      assert m[..offset] == m[..][..offset] && m[offset + 4..] == m[..][offset + 4..];
      Store(m, offset, Words(t0, t1, t2, t3));
    }

    /** Encrypts the block at `offset` in place: the cipher of section 5.1. */
    method EncryptBlock(m: array<bv32>, offset: nat, ghost key: seq<Column>)
      requires Keyed(key) && offset + 4 <= m.Length
      modifies m
      ensures Block(m[..], offset) == Cipher(key, nRounds - 1, Block(old(m[..]), offset))
      ensures m[..offset] == old(m[..offset]) && m[offset + 4..] == old(m[offset + 4..])
    {
      hide Complete, Expands, Inverts, Crypt, Cipher, Col;
      CryptForward(key, keySchedule, nRounds, Block(m[..], offset));
      DoCryptBlock(m, offset, keySchedule, Forward, forward);
    }

    /** Decrypts the block at `offset` in place: the inverse cipher of section 5.3. */
    method DecryptBlock(m: array<bv32>, offset: nat, ghost key: seq<Column>)
      requires Keyed(key) && offset + 4 <= m.Length
      modifies m
      ensures Block(m[..], offset) == InvCipher(key, nRounds - 1, Block(old(m[..]), offset))
      ensures m[..offset] == old(m[..offset]) && m[offset + 4..] == old(m[offset + 4..])
    {
      hide Complete, Expands, Crypt, InvCipher, Block, KeyState, InverseKey;
      ghost var before := Block(m[..], offset);
      CryptBackward(key, invKeySchedule, nRounds, before);
      SwapWords(m, offset);
      DoCryptBlock(m, offset, invKeySchedule, Backward, backward);
      SwapWords(m, offset);
    }
  }

  // ----- a round on four words

  datatype Words = Words(w0: bv32, w1: bv32, w2: bv32, w3: bv32)

  function StateOf(w: Words): State { State(Col(w.w0), Col(w.w1), Col(w.w2), Col(w.w3)) }

  lemma BlockIs(m: seq<bv32>, offset: nat)
    requires offset + 4 <= |m|
    ensures Block(m, offset) == StateOf(Words(m[offset], m[offset + 1], m[offset + 2], m[offset + 3]))
  {
    hide Col;
  }

  lemma FirstState(d: Direction, schedule: seq<bv32>, w: Words)
    requires |schedule| >= 4
    ensures StateOf(Words(Xor32(w.w0, schedule[0]), Xor32(w.w1, schedule[1]), Xor32(w.w2, schedule[2]), Xor32(w.w3, schedule[3]))) ==
            CryptRounds(d, schedule, 0, StateOf(w))
  {
    hide Col, Xor32, XorColumn;
    ColXor(w.w0, schedule[0]);
    ColXor(w.w1, schedule[1]);
    ColXor(w.w2, schedule[2]);
    ColXor(w.w3, schedule[3]);
  }

  /** One output column of a round. */
  lemma RoundColumn(d: Direction, t: Tables, a: bv32, b: bv32, c: bv32, e: bv32, k: bv32)
    requires Complete(d, t)
    ensures Has(t, Byte0(a)) && Has(t, Byte1(b)) && Has(t, Byte2(c)) && Has(t, Byte3(e))
    ensures var mixed := Column(Byte0(a), Byte1(b), Byte2(c), Byte3(e));
            && Col(Xor32(Lookup(t, Byte0(a), Byte1(b), Byte2(c), Byte3(e)), k)) == XorColumn(MixColumn(d, SubColumn(d, mixed)), Col(k))
            && Col(Xor32(SubWord(t, Byte0(a), Byte1(b), Byte2(c), Byte3(e)), k)) == XorColumn(SubColumn(d, mixed), Col(k))
  {
    hide Complete, Col, Lookup, SubWord, Xor32, Byte0, Byte1, Byte2, Byte3, MixColumn, SubColumn, XorColumn, Has;
    var mixed := Column(Byte0(a), Byte1(b), Byte2(c), Byte3(e));
    LookupMixes(d, t, mixed);
    SubWordIs(d, t, mixed);
    ColXor(Lookup(t, Byte0(a), Byte1(b), Byte2(c), Byte3(e)), k);
    ColXor(SubWord(t, Byte0(a), Byte1(b), Byte2(c), Byte3(e)), k);
  }

  /** The words after a round with table lookups. */
  function RoundWords(t: Tables, w: Words, k: Words): Words
    requires forall b :: Has(t, b)
  {
    Words(Xor32(Lookup(t, Byte0(w.w0), Byte1(w.w1), Byte2(w.w2), Byte3(w.w3)), k.w0),
          Xor32(Lookup(t, Byte0(w.w1), Byte1(w.w2), Byte2(w.w3), Byte3(w.w0)), k.w1),
          Xor32(Lookup(t, Byte0(w.w2), Byte1(w.w3), Byte2(w.w0), Byte3(w.w1)), k.w2),
          Xor32(Lookup(t, Byte0(w.w3), Byte1(w.w0), Byte2(w.w1), Byte3(w.w2)), k.w3))
  }

  /** The words after the last round. */
  function LastWords(t: Tables, w: Words, k: Words): Words
    requires forall b :: Has(t, b)
  {
    Words(Xor32(SubWord(t, Byte0(w.w0), Byte1(w.w1), Byte2(w.w2), Byte3(w.w3)), k.w0),
          Xor32(SubWord(t, Byte0(w.w1), Byte1(w.w2), Byte2(w.w3), Byte3(w.w0)), k.w1),
          Xor32(SubWord(t, Byte0(w.w2), Byte1(w.w3), Byte2(w.w0), Byte3(w.w1)), k.w2),
          Xor32(SubWord(t, Byte0(w.w3), Byte1(w.w0), Byte2(w.w1), Byte3(w.w2)), k.w3))
  }

  /** One pass of the loop is SubBytes, ShiftRows, MixColumns and AddRoundKey. */
  lemma FullRound(d: Direction, t: Tables, w: Words, k: Words)
    requires Complete(d, t)
    ensures forall b :: Has(t, b)
    ensures StateOf(RoundWords(t, w, k)) == AddRoundKey(MixColumns(d, ShiftRows(Forward, SubBytes(d, StateOf(w)))), StateOf(k))
  {
    hide Complete, Lookup, SubWord, Xor32, Byte0, Byte1, Byte2, Byte3, MixColumn, SubByte, XorColumn, Has;
    BytesPresent(d, t);
    RoundColumn(d, t, w.w0, w.w1, w.w2, w.w3, k.w0);
    RoundColumn(d, t, w.w1, w.w2, w.w3, w.w0, k.w1);
    RoundColumn(d, t, w.w2, w.w3, w.w0, w.w1, k.w2);
    RoundColumn(d, t, w.w3, w.w0, w.w1, w.w2, k.w3);
  }

  /** The last round has no MixColumns. */
  lemma LastRound(d: Direction, t: Tables, w: Words, k: Words)
    requires Complete(d, t)
    ensures forall b :: Has(t, b)
    ensures StateOf(LastWords(t, w, k)) == AddRoundKey(ShiftRows(Forward, SubBytes(d, StateOf(w))), StateOf(k))
  {
    hide Complete, Lookup, SubWord, Xor32, Byte0, Byte1, Byte2, Byte3, MixColumn, SubByte, XorColumn, Has;
    BytesPresent(d, t);
    RoundColumn(d, t, w.w0, w.w1, w.w2, w.w3, k.w0);
    RoundColumn(d, t, w.w1, w.w2, w.w3, w.w0, k.w1);
    RoundColumn(d, t, w.w2, w.w3, w.w0, w.w1, k.w2);
    RoundColumn(d, t, w.w3, w.w0, w.w1, w.w2, k.w3);
  }

  lemma KeyWords(schedule: seq<bv32>, round: nat)
    requires 4 * round + 4 <= |schedule|
    ensures KeyState(schedule, round) ==
            StateOf(Words(schedule[4 * round], schedule[4 * round + 1], schedule[4 * round + 2], schedule[4 * round + 3]))
  {
    hide Col;
  }

  lemma RoundStep(d: Direction, schedule: seq<bv32>, n: nat, s: State)
    requires n > 0 && 4 * n + 4 <= |schedule|
    ensures CryptRounds(d, schedule, n, s) ==
            AddRoundKey(MixColumns(d, ShiftRows(Forward, SubBytes(d, CryptRounds(d, schedule, n - 1, s)))), KeyState(schedule, n))
  {
    hide AddRoundKey, MixColumns, ShiftRows, SubBytes, KeyState;
  }

  lemma LastStep(d: Direction, schedule: seq<bv32>, n: nat, s: State)
    requires n > 0 && 4 * n + 4 <= |schedule|
    ensures Crypt(d, schedule, n, s) == AddRoundKey(ShiftRows(Forward, SubBytes(d, CryptRounds(d, schedule, n - 1, s))), KeyState(schedule, n))
  {
    hide AddRoundKey, ShiftRows, SubBytes, KeyState, CryptRounds;
  }

  lemma FirstRows(key: seq<Column>, i: nat)
    requires i < |key|
    ensures ExpandedKey(key, i) == key[i]
  {
    hide SubColumn, XorColumn, PowerOfTwo;
  }

  lemma ColIs(w: bv32)
    ensures Col(w) == Column(Byte0(w), Byte1(w), Byte2(w), Byte3(w))
  {
    hide Byte0, Byte1, Byte2, Byte3;
  }

  lemma RconIndex(ksRow: nat, keySize: nat)
    requires (keySize == 4 || keySize == 6 || keySize == 8) && keySize <= ksRow < 4 * (keySize + 7)
    ensures 1 <= ksRow / keySize <= 10
  {
  }

  // ----- the round trip

  lemma BlockInjective(m: seq<bv32>, n: seq<bv32>, offset: nat)
    requires |m| == |n| && offset + 4 <= |m| && Block(m, offset) == Block(n, offset)
    requires m[..offset] == n[..offset] && m[offset + 4..] == n[offset + 4..]
    ensures m == n
  {
    hide Col;
    ColInjective(m[offset], n[offset]);
    ColInjective(m[offset + 1], n[offset + 1]);
    ColInjective(m[offset + 2], n[offset + 2]);
    ColInjective(m[offset + 3], n[offset + 3]);
    assert m[offset..offset + 4] == n[offset..offset + 4];
    assert m == m[..offset] + m[offset..offset + 4] + m[offset + 4..] && n == n[..offset] + n[offset..offset + 4] + n[offset + 4..];
  }

  /** Under any key of the three sizes, decrypting an encrypted block leaves memory as it was, and so does encrypting a decrypted one. */
  method RoundTrip(keyWords: seq<bv32>, sigBytes: nat, m: array<bv32>, offset: nat, encryptFirst: bool)
    requires (sigBytes == 16 || sigBytes == 24 || sigBytes == 32) && sigBytes / 4 <= |keyWords| && offset + 4 <= m.Length
    modifies m
    ensures m[..] == old(m[..])
  {
    hide Complete, Cipher, InvCipher, Block, Expands, Inverts;
    var aes := new AES();
    aes.DoReset(keyWords, sigBytes);
    ghost var key := KeyColumns(keyWords, sigBytes / 4);
    ghost var before := Block(m[..], offset);
    if encryptFirst {
      aes.EncryptBlock(m, offset, key);
      aes.DecryptBlock(m, offset, key);
      InvCipherRestores(key, aes.nRounds - 1, before);
    } else {
      aes.DecryptBlock(m, offset, key);
      aes.EncryptBlock(m, offset, key);
      CipherRestores(key, aes.nRounds - 1, before);
    }
    BlockInjective(m[..], old(m[..]), offset);
  }
}

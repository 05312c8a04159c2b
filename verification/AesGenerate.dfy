/** The loop that fills the lookup tables. */
module AesGenerate {
  import opened AesField
  import opened AesWalk
  import opened AesSpec
  import opened AesInverse
  import opened AesTables

  /** Twice `i`, reduced by the field's polynomial when it leaves the byte range. */
  function Doubled(b: bv8): bv8 {
    var i := b as bv16;
    if b < 128 then ((i << 1) & 0xff) as bv8 else (((i << 1) ^ 0x11b) & 0xff) as bv8
  }

  lemma DoubledIs(b: bv8)
    ensures Doubled(b) == Xtime(b)
  {
  }

  lemma IndexOfByte(i: nat)
    requires i < 256
    ensures Index(i as bv8) == i
  {
  }

  lemma IndexRange(b: bv8)
    ensures Index(b) < 256
  {
  }

  /** The table of doubles: entry `i` is the double of byte `i`. */
  method DoubleTable() returns (d: seq<bv8>)
    ensures |d| == 256 && forall b :: Index(b) < |d| && d[Index(b)] == Xtime(b)
  {
    hide Index, Doubled, Xtime;
    d := [];
    for i := 0 to 256
      invariant |d| == i
      invariant forall b :: Index(b) < i ==> d[Index(b)] == Xtime(b)
    {
      var byte := i as bv8;
      IndexOfByte(i);
      DoubledIs(byte);
      d := d + [Doubled(byte)];
      forall b | Index(b) == i ensures b == byte { IndexInjective(b, byte); }
    }
    forall b ensures Index(b) < 256 { IndexRange(b); }
  }

  /** Row `n` of both sets of tables is filled with the right entries. */
  lemma RowRight(n: nat, forward: Tables, backward: Tables)
    requires Right(Forward, forward) && Right(Backward, backward)
    ensures var x, xi := Row(n), RowInverse(n);
            var sx := Folded(xi);
            && sx == Sub(x)
            && Right(Forward, With(forward, x, MixWord(Xtime(sx), sx), sx)) && Has(With(forward, x, MixWord(Xtime(sx), sx), sx), x)
            && (forall c :: Has(forward, c) ==> Has(With(forward, x, MixWord(Xtime(sx), sx), sx), c))
            && var w := InvMixWord(Xtime(Xtime(Xtime(x))), Xtime(Xtime(x)), Xtime(x), x);
               && Right(Backward, With(backward, sx, w, x)) && Has(With(backward, sx, w, x), sx)
               && (forall c :: Has(backward, c) ==> Has(With(backward, sx, w, x), c))
  {
    hide *;
    var x := Row(n);
    var sx := Folded(RowInverse(n));
    RowSub(n);
    SubInverts(x);
    EntryIs(Forward, x);
    EntryIs(Backward, sx);
    MixWordIs(sx);
    InvMixWordIs(x);
    WithRight(Forward, forward, x, MixWord(Xtime(sx), sx), sx);
    WithRight(Backward, backward, sx, InvMixWord(Xtime(Xtime(Xtime(x))), Xtime(Xtime(x)), Xtime(x), x), x);
  }

  lemma RowSub(n: nat)
    ensures Folded(RowInverse(n)) == Sub(Row(n))
  {
    hide Folded, Affine, Row, RowInverse, Inverse;
    FoldedIsAffine(RowInverse(n));
    RowHasInverse(n);
  }

  lemma EntryIs(d: Direction, b: bv8)
    ensures Entry(d, b) == MixColumn(d, Unit(SubByte(d, b)))
    ensures SubByte(Forward, b) == Sub(b) && SubByte(Backward, b) == InvSub(b)
  {
    hide MixColumn, Sub, InvSub;
  }

  /** The step from one row to the next, as the loop computes it. */
  lemma NextRow(n: nat)
    ensures var x, xi := Row(n), RowInverse(n);
            var x2 := Xtime(x);
            var x8 := Xtime(Xtime(x2));
            && (x == 0 ==> Row(n + 1) == 1 && RowInverse(n + 1) == 1)
            && (x != 0 ==> Row(n + 1) == Xor(x2, Xtime(Xtime(Xtime(Xor(x8, x2))))) && RowInverse(n + 1) == Xor(xi, Xtime(Xtime(xi))))
  {
    hide Xtime, Xor;
    if n > 0 { RowNonZero(n); }
  }

  /** After 256 rows every byte has its entry, in both directions. */
  lemma AllFilled(forward: Tables, backward: Tables)
    requires forall k: nat :: k < 256 ==> Has(forward, Row(k)) && Has(backward, Sub(Row(k)))
    ensures forall b :: Has(forward, b) && Has(backward, b)
  {
    hide *;
    forall b ensures Has(forward, b) && Has(backward, b) {
      var m := EveryByte(b);
      var n := EveryByte(InvSub(b));
      SubInverts(b);
    }
  }

  /** Fills the tables of both directions, each complete and right. */
  method Generate() returns (forward: Tables, backward: Tables)
    ensures Complete(Forward, forward) && Complete(Backward, backward)
  {
    hide *;
    var d := DoubleTable();
    forward := Tables(map[], map[], map[], map[], map[]);
    backward := forward;
    EmptyRight(forward);
    var x: bv8, xi: bv8 := 0, 0;
    RowZero();
    for i := 0 to 256
      invariant x == Row(i) && xi == RowInverse(i)
      invariant Right(Forward, forward) && Right(Backward, backward)
      invariant forall k: nat :: k < i ==> Has(forward, Row(k)) && Has(backward, Sub(Row(k)))
    {
      var sx := Folded(xi);
      var x2 := d[Index(x)];
      var x4 := d[Index(x2)];
      var x8 := d[Index(x4)];
      RowRight(i, forward, backward);
      forward := With(forward, x, MixWord(d[Index(sx)], sx), sx);
      backward := With(backward, sx, InvMixWord(x8, x4, x2, x), x);
      NextRow(i);
      if x == 0 {
        x, xi := 1, 1;
      } else {
        x := Xor(x2, d[Index(d[Index(d[Index(Xor(x8, x2))])])]);
        xi := Xor(xi, d[Index(d[Index(xi)])]);
      }
    }
    AllFilled(forward, backward);
    CompleteIs(Forward, forward);
    CompleteIs(Backward, backward);
  }

  lemma EmptyRight(t: Tables)
    requires t == Tables(map[], map[], map[], map[], map[])
    ensures Right(Forward, t) && Right(Backward, t)
  {
  }

  lemma CompleteIs(d: Direction, t: Tables)
    requires Right(d, t) && forall b :: Has(t, b)
    ensures Complete(d, t)
  {
    hide Right, Has;
  }
}

/** Base64 (section 4 of RFC 4648) on bytes and six-bit values. */
module Base64Spec {

  /** A byte, or 0 beyond the end. */
  function At(b: seq<bv8>, k: nat): bv8 { if k < |b| then b[k] else 0 }

  /** How many six-bit values `n` bytes need, and how many bytes `m` of them hold. */
  function SextetCount(n: nat): nat { 4 * (n / 3) + if n % 3 == 0 then 0 else n % 3 + 1 }

  function ByteCount(m: nat): nat { 3 * (m / 4) + if m % 4 == 0 then 0 else m % 4 - 1 }

  /** Six-bit value `k` of the encoding. */
  function Sextet(b: seq<bv8>, k: nat): bv8 {
    var g := 3 * (k / 4);
    if k % 4 == 0 then At(b, g) >> 2
    else if k % 4 == 1 then ((At(b, g) & 3) << 4) | (At(b, g + 1) >> 4)
    else if k % 4 == 2 then ((At(b, g + 1) & 15) << 2) | (At(b, g + 2) >> 6)
    else At(b, g + 2) & 63
  }

  /** The bytes' encoding, without padding. */
  function Encode(b: seq<bv8>): (c: seq<bv8>)
    ensures |c| == SextetCount(|b|)
  {
    seq(SextetCount(|b|), k requires 0 <= k => Sextet(b, k))
  }

  /** Byte `k` of what six-bit values stand for. */
  function Byte(c: seq<bv8>, k: nat): bv8 {
    var g := 4 * (k / 3);
    if k % 3 == 0 then (At(c, g) << 2) | (At(c, g + 1) >> 4)
    else if k % 3 == 1 then (At(c, g + 1) << 4) | (At(c, g + 2) >> 2)
    else (At(c, g + 2) << 6) | At(c, g + 3)
  }

  function Decode(c: seq<bv8>): (b: seq<bv8>)
    ensures |b| == ByteCount(|c|)
  {
    seq(ByteCount(|c|), k requires 0 <= k => Byte(c, k))
  }

  lemma CountsMatch(n: nat)
    ensures ByteCount(SextetCount(n)) == n
  {
  }

  lemma First(x: bv8, y: bv8)
    ensures ((x >> 2) << 2) | ((((x & 3) << 4) | (y >> 4)) >> 4) == x
  {
  }

  lemma Second(x: bv8, y: bv8, z: bv8)
    ensures ((((x & 3) << 4) | (y >> 4)) << 4) | ((((y & 15) << 2) | (z >> 6)) >> 2) == y
  {
  }

  lemma Third(y: bv8, z: bv8)
    ensures ((((y & 15) << 2) | (z >> 6)) << 6) | (z & 63) == z
  {
  }

  /** Which six-bit values a byte is spread over, and that they are there. */
  lemma Places(n: nat, k: nat)
    requires k < n
    ensures var g := k / 3;
            && (4 * g) / 4 == g && (4 * g + 1) / 4 == g && (4 * g + 2) / 4 == g && (4 * g + 3) / 4 == g
            && (4 * g) % 4 == 0 && (4 * g + 1) % 4 == 1 && (4 * g + 2) % 4 == 2 && (4 * g + 3) % 4 == 3
            && 4 * g + k % 3 + 1 < SextetCount(n)
  {
    var g, q := k / 3, n / 3;
    assert k == 3 * g + k % 3 && n == 3 * q + n % 3;
    if g == q { assert k % 3 < n % 3; }
  }

  /** Decoding restores every byte, whatever the number of bytes. */
  lemma DecodeEncode(b: seq<bv8>)
    ensures Decode(Encode(b)) == b
  {
    var c := Encode(b);
    CountsMatch(|b|);
    forall k | 0 <= k < |b| ensures Byte(c, k) == b[k] { RestoresByte(b, k); }
  }

  lemma RestoresByte(b: seq<bv8>, k: nat)
    requires k < |b|
    ensures Byte(Encode(b), k) == b[k]
  {
    hide Sextet;
    var c := Encode(b);
    var g := k / 3;
    Places(|b|, k);
    SextetsAre(b, g);
    if k % 3 == 0 {
      First(At(b, 3 * g), At(b, 3 * g + 1));
      assert c[4 * g] == Sextet(b, 4 * g) && c[4 * g + 1] == Sextet(b, 4 * g + 1);
    } else if k % 3 == 1 {
      Second(At(b, 3 * g), At(b, 3 * g + 1), At(b, 3 * g + 2));
      assert c[4 * g + 1] == Sextet(b, 4 * g + 1) && c[4 * g + 2] == Sextet(b, 4 * g + 2);
    } else {
      Third(At(b, 3 * g + 1), At(b, 3 * g + 2));
      assert c[4 * g + 2] == Sextet(b, 4 * g + 2) && c[4 * g + 3] == Sextet(b, 4 * g + 3);
    }
  }

  lemma SextetsAre(b: seq<bv8>, g: nat)
    ensures Sextet(b, 4 * g) == At(b, 3 * g) >> 2
    ensures Sextet(b, 4 * g + 1) == ((At(b, 3 * g) & 3) << 4) | (At(b, 3 * g + 1) >> 4)
    ensures Sextet(b, 4 * g + 2) == ((At(b, 3 * g + 1) & 15) << 2) | (At(b, 3 * g + 2) >> 6)
    ensures Sextet(b, 4 * g + 3) == At(b, 3 * g + 2) & 63
  {
    hide At;
    assert (4 * g) / 4 == g && (4 * g + 1) / 4 == g && (4 * g + 2) / 4 == g && (4 * g + 3) / 4 == g;
  }
}

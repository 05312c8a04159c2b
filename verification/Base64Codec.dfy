/** The codec on arrays of 32-bit words. */
module Base64Codec {
  import opened Base64Spec

  // ----- the alphabet

  function Range(from: char, n: nat): string
    requires from as int + n < 128
  {
    seq(n, k requires 0 <= k < n => (from as int + k) as char)
  }

  /** The alphabet, with the padding character at its end. */
  const MAP: string := Range('A', 26) + Range('a', 26) + Range('0', 10) + "+/="

  /** The first place of a character, or -1. */
  function IndexOf(c: char, from: nat): (k: int)
    requires from <= |MAP|
    ensures k == -1 || (from <= k < |MAP| && MAP[k] == c)
    decreases |MAP| - from
  {
    if from == |MAP| then -1 else if MAP[from] == c then from else IndexOf(c, from + 1)
  }

  lemma {:induction false} IndexOfFirst(k: nat, from: nat)
    requires from <= k < |MAP|
    ensures IndexOf(MAP[k], from) == k
    decreases k - from
  {
    hide MAP;
    if from < k {
      Different(from, k);
      IndexOfFirst(k, from + 1);
    }
  }

  lemma Different(j: nat, k: nat)
    requires j < k < |MAP|
    ensures MAP[j] != MAP[k]
  {
    Ranges(j);
    Ranges(k);
  }

  /** Which character stands where. */
  lemma Ranges(k: nat)
    requires k < |MAP|
    ensures |MAP| == 65
    ensures k < 26 ==> MAP[k] as int == 65 + k
    ensures 26 <= k < 52 ==> MAP[k] as int == 97 + k - 26
    ensures 52 <= k < 62 ==> MAP[k] as int == 48 + k - 52
    ensures k == 62 ==> MAP[k] == '+'
    ensures k == 63 ==> MAP[k] == '/'
    ensures k == 64 ==> MAP[k] == '='
  {
  }

  function Char(x: bv8): char
    requires x < 64
  {
    MapLength();
    MAP[x as nat]
  }

  lemma MapLength()
    ensures |MAP| == 65
  {
  }

  // ----- words

  /** Byte `p` of a word, the most significant being byte 0. */
  function WordByte(w: bv32, p: nat): bv8
    requires p < 4
  {
    if p == 0 then (w >> 24) as bv8 else if p == 1 then ((w >> 16) & 0xff) as bv8 else if p == 2 then ((w >> 8) & 0xff) as bv8 else (w & 0xff) as bv8
  }

  /** Byte `k` of an array of words; beyond the array it is 0. */
  function ByteOf(words: seq<bv32>, k: nat): bv8 { if k / 4 < |words| then WordByte(words[k / 4], k % 4) else 0 }

  function BytesOf(words: seq<bv32>, n: nat): (b: seq<bv8>)
    ensures |b| == n
  {
    seq(n, k requires 0 <= k => ByteOf(words, k))
  }

  /** As many words as the bytes need, and nothing but 0 beyond the bytes. */
  ghost predicate Clamped(words: seq<bv32>, n: nat) {
    |words| == (n + 3) / 4 && forall k: nat :: n <= k < 4 * |words| ==> ByteOf(words, k) == 0
  }

  lemma WordIsBytes(v: bv32, w: bv32)
    requires WordByte(v, 0) == WordByte(w, 0) && WordByte(v, 1) == WordByte(w, 1) && WordByte(v, 2) == WordByte(w, 2) && WordByte(v, 3) == WordByte(w, 3)
    ensures v == w
  {
    WordOf(v);
    WordOf(w);
  }

  lemma WordOf(w: bv32)
    ensures w == (WordByte(w, 0) as bv32 << 24) | (WordByte(w, 1) as bv32 << 16) | (WordByte(w, 2) as bv32 << 8) | (WordByte(w, 3) as bv32)
  {
  }

  /** Clamped words are determined by their bytes. */
  lemma ClampedUnique(v: seq<bv32>, w: seq<bv32>, n: nat)
    requires Clamped(v, n) && Clamped(w, n) && BytesOf(v, n) == BytesOf(w, n)
    ensures v == w
  {
    forall j | 0 <= j < |v| ensures v[j] == w[j] { WordAt(v, w, n, j); }
  }

  lemma WordAt(v: seq<bv32>, w: seq<bv32>, n: nat, j: nat)
    requires Clamped(v, n) && Clamped(w, n) && BytesOf(v, n) == BytesOf(w, n) && j < |v|
    ensures v[j] == w[j]
  {
    hide WordByte;
    SameByte(v, w, n, 4 * j);
    SameByte(v, w, n, 4 * j + 1);
    SameByte(v, w, n, 4 * j + 2);
    SameByte(v, w, n, 4 * j + 3);
    WordIsBytes(v[j], w[j]);
  }

  lemma SameByte(v: seq<bv32>, w: seq<bv32>, n: nat, k: nat)
    requires Clamped(v, n) && Clamped(w, n) && BytesOf(v, n) == BytesOf(w, n) && k < 4 * |v|
    ensures ByteOf(v, k) == ByteOf(w, k)
  {
    hide WordByte;
    if k < n { assert BytesOf(v, n)[k] == BytesOf(w, n)[k]; }
  }

  // ----- stringify

  function Triplet(a: bv8, b: bv8, c: bv8): bv32 { (a as bv32 << 16) | (b as bv32 << 8) | c as bv32 }

  /** Six bits of a triplet, at the shifts 18, 12, 6 and 0. */
  function Quarter(t: bv32, j: nat): bv8
    requires j < 4
  {
    ((if j == 0 then t >> 18 else if j == 1 then t >> 12 else if j == 2 then t >> 6 else t) & 0x3f) as bv8
  }

  lemma Quarter0(a: bv8, b: bv8, c: bv8)
    ensures Quarter(Triplet(a, b, c), 0) == a >> 2
  {
  }

  lemma Quarter1(a: bv8, b: bv8, c: bv8)
    ensures Quarter(Triplet(a, b, c), 1) == ((a & 3) << 4) | (b >> 4)
  {
  }

  lemma Quarter2(a: bv8, b: bv8, c: bv8)
    ensures Quarter(Triplet(a, b, c), 2) == ((b & 15) << 2) | (c >> 6)
  {
  }

  lemma Quarter3(a: bv8, b: bv8, c: bv8)
    ensures Quarter(Triplet(a, b, c), 3) == c & 63
  {
  }

  lemma QuarterSmall(t: bv32, j: nat)
    requires j < 4
    ensures Quarter(t, j) < 64
  {
  }

  /** Character `k` of the encoding comes from the triplet that starts at byte `3 * (k / 4)`. */
  lemma QuarterIsSextet(b: seq<bv8>, g: nat, j: nat)
    requires j < 4
    ensures Quarter(Triplet(At(b, 3 * g), At(b, 3 * g + 1), At(b, 3 * g + 2)), j) == Sextet(b, 4 * g + j)
  {
    hide Quarter, Triplet, At, Sextet;
    SextetsAre(b, g);
    if j == 0 {
      Quarter0(At(b, 3 * g), At(b, 3 * g + 1), At(b, 3 * g + 2));
    } else if j == 1 {
      Quarter1(At(b, 3 * g), At(b, 3 * g + 1), At(b, 3 * g + 2));
    } else if j == 2 {
      Quarter2(At(b, 3 * g), At(b, 3 * g + 1), At(b, 3 * g + 2));
    } else {
      Quarter3(At(b, 3 * g), At(b, 3 * g + 1), At(b, 3 * g + 2));
    }
  }

  lemma SextetSmall(b: seq<bv8>, k: nat)
    ensures Sextet(b, k) < 64
  {
    hide Quarter, Triplet, At, Sextet;
    var g := k / 4;
    assert k == 4 * g + k % 4;
    QuarterIsSextet(b, g, k % 4);
    QuarterSmall(Triplet(At(b, 3 * g), At(b, 3 * g + 1), At(b, 3 * g + 2)), k % 4);
  }

  /** The text of six-bit values. */
  function Text(c: seq<bv8>): (t: string)
    requires forall k :: 0 <= k < |c| ==> c[k] < 64
    ensures |t| == |c|
  {
    seq(|c|, k requires 0 <= k < |c| => Char(c[k]))
  }

  function Padding(n: nat): string { if n % 4 == 0 then "" else if n % 4 == 3 then "=" else if n % 4 == 2 then "==" else "===" }

  lemma EncodeSmall(b: seq<bv8>)
    ensures forall k :: 0 <= k < |Encode(b)| ==> Encode(b)[k] < 64
  {
    hide Sextet;
    forall k | 0 <= k < |Encode(b)| ensures Encode(b)[k] < 64 { SextetSmall(b, k); }
  }

  /** The characters of the encoding, and padding to a multiple of four. */
  method Stringify(words: seq<bv32>, sigBytes: nat) returns (s: string)
    requires Clamped(words, sigBytes)
    ensures forall k :: 0 <= k < |Encode(BytesOf(words, sigBytes))| ==> Encode(BytesOf(words, sigBytes))[k] < 64
    ensures var c := Encode(BytesOf(words, sigBytes)); s == Text(c) + Padding(|c|)
  {
    hide Sextet, Quarter, Triplet, WordByte, Char, ByteOf, At;
    ghost var bytes := BytesOf(words, sigBytes);
    ghost var c := Encode(bytes);
    EncodeSmall(bytes);
    s := "";
    var i := 0;
    while i < sigBytes
      invariant i % 3 == 0 && 0 <= i <= sigBytes + 2
      invariant |s| == (if i <= sigBytes then 4 * (i / 3) else |c|) <= |c|
      invariant forall k :: 0 <= k < |s| ==> s[k] == Char(c[k])
      decreases sigBytes - i
    {
      var triplet := Triplet(ByteOf(words, i), ByteOf(words, i + 1), ByteOf(words, i + 2));
      ghost var g := i / 3;
      AtBytes(words, sigBytes, i);
      AtBytes(words, sigBytes, i + 1);
      AtBytes(words, sigBytes, i + 2);
      s := EmitTriplet(triplet, i, sigBytes, bytes, s);
      i := i + 3;
    }
    TextIs(s, c);
    s := Pad(s);
  }

  lemma TextIs(s: string, c: seq<bv8>)
    requires |s| == |c| && (forall k :: 0 <= k < |c| ==> c[k] < 64) && forall k :: 0 <= k < |s| ==> s[k] == Char(c[k])
    ensures s == Text(c)
  {
    hide Char;
  }

  /** The inner loop: as many characters as the bytes of the triplet need. */
  method EmitTriplet(triplet: bv32, i: nat, sigBytes: nat, ghost bytes: seq<bv8>, before: string) returns (s: string)
    requires i % 3 == 0 && i < sigBytes == |bytes| && |before| == 4 * (i / 3)
    requires triplet == Triplet(At(bytes, i), At(bytes, i + 1), At(bytes, i + 2))
    requires forall k :: 0 <= k < |Encode(bytes)| ==> Encode(bytes)[k] < 64
    requires forall k :: 0 <= k < |before| ==> k < |Encode(bytes)| && before[k] == Char(Encode(bytes)[k])
    ensures |s| == (if i + 3 <= sigBytes then 4 * (i / 3 + 1) else SextetCount(sigBytes)) <= |Encode(bytes)|
    ensures forall k :: 0 <= k < |s| ==> s[k] == Char(Encode(bytes)[k])
  {
    hide Sextet, Quarter, Triplet, Char, At;
    ghost var c := Encode(bytes);
    ghost var g := i / 3;
    assert i == 3 * g;
    s := before;
    var j := 0;
    while j < 4 && 4 * i + 3 * j < 4 * sigBytes
      invariant 0 <= j <= 4 && |s| == 4 * g + j <= |c|
      invariant forall k :: 0 <= k < |s| ==> s[k] == Char(c[k])
    {
      QuarterSmall(triplet, j);
      QuarterIsSextet(bytes, g, j);
      s := s + [Char(Quarter(triplet, j))];
      j := j + 1;
    }
  }

  /** Pads a text to a multiple of four. */
  method Pad(text: string) returns (s: string)
    ensures s == text + Padding(|text|) && |s| % 4 == 0
  {
    s := text;
    while |s| % 4 != 0
      invariant text <= s && |s| <= |text| + |Padding(|text|)|
      invariant s == text + Padding(|text|)[..|s| - |text|]
      decreases |text| + |Padding(|text|)| - |s|
    {
      s := s + "=";
    }
  }

  /** Bytes beyond the significant ones are 0, in the words as in the specification. */
  lemma AtBytes(words: seq<bv32>, n: nat, k: nat)
    requires Clamped(words, n)
    ensures ByteOf(words, k) == At(BytesOf(words, n), k)
  {
    hide WordByte;
  }

  // ----- parse

  /** What `indexOf` gives as a 32-bit number. */
  function Bits(c: char): bv32 {
    var k := IndexOf(c, 0);
    MapLength();
    if k == -1 then 0xffff_ffff else k as bv32
  }

  /** The bits of two neighbouring characters, at shifts that depend on the place of the second; up to twelve bits. */
  function Joined(a: bv32, b: bv32, t: nat): bv32
    requires t < 4
  {
    if t == 1 then (a << 2) | (b >> 4) else if t == 2 then (a << 4) | (b >> 2) else (a << 6) | b
  }

  /** The word with twelve bits put where byte `p` is. */
  function OrInto(w: bv32, v: bv32, p: nat): bv32
    requires p < 4
  {
    w | (if p == 0 then v << 24 else if p == 1 then v << 16 else if p == 2 then v << 8 else v)
  }

  /** Byte `k` of the value with the bits put in: the byte itself gets the low eight bits, the byte before gets the four above. */
  lemma OrBytes(w: bv32, v: bv32, p: nat, q: nat)
    requires p < 4 && q < 4 && v < 0x1000
    ensures WordByte(OrInto(w, v, p), q) ==
            if q == p then WordByte(w, q) | ((v & 0xff) as bv8)
            else if q + 1 == p then WordByte(w, q) | ((v >> 8) as bv8)
            else WordByte(w, q)
  {
    hide OrInto, WordByte;
    if p == 0 {
      OrByte0(w, v);
    } else if p == 1 {
      OrByte1(w, v);
    } else if p == 2 {
      OrByte2(w, v);
    } else {
      OrByte3(w, v);
    }
  }

  lemma OrByte0(w: bv32, v: bv32)
    requires v < 0x1000
    ensures WordByte(OrInto(w, v, 0), 0) == WordByte(w, 0) | ((v & 0xff) as bv8)
    ensures WordByte(OrInto(w, v, 0), 1) == WordByte(w, 1) && WordByte(OrInto(w, v, 0), 2) == WordByte(w, 2) && WordByte(OrInto(w, v, 0), 3) == WordByte(w, 3)
  {
  }

  lemma OrByte1(w: bv32, v: bv32)
    requires v < 0x1000
    ensures WordByte(OrInto(w, v, 1), 0) == WordByte(w, 0) | ((v >> 8) as bv8)
    ensures WordByte(OrInto(w, v, 1), 1) == WordByte(w, 1) | ((v & 0xff) as bv8)
    ensures WordByte(OrInto(w, v, 1), 2) == WordByte(w, 2) && WordByte(OrInto(w, v, 1), 3) == WordByte(w, 3)
  {
    hide OrInto, WordByte;
    OrByte1High(w, v);
    OrByte1Low(w, v);
  }

  lemma OrByte1High(w: bv32, v: bv32)
    requires v < 0x1000
    ensures WordByte(OrInto(w, v, 1), 0) == WordByte(w, 0) | ((v >> 8) as bv8)
  {
  }

  lemma OrByte1Low(w: bv32, v: bv32)
    requires v < 0x1000
    ensures WordByte(OrInto(w, v, 1), 1) == WordByte(w, 1) | ((v & 0xff) as bv8)
    ensures WordByte(OrInto(w, v, 1), 2) == WordByte(w, 2) && WordByte(OrInto(w, v, 1), 3) == WordByte(w, 3)
  {
  }

  lemma OrByte2(w: bv32, v: bv32)
    requires v < 0x1000
    ensures WordByte(OrInto(w, v, 2), 1) == WordByte(w, 1) | ((v >> 8) as bv8)
    ensures WordByte(OrInto(w, v, 2), 2) == WordByte(w, 2) | ((v & 0xff) as bv8)
    ensures WordByte(OrInto(w, v, 2), 0) == WordByte(w, 0) && WordByte(OrInto(w, v, 2), 3) == WordByte(w, 3)
  {
    ShiftedLow(w, v);
    ShiftedHigh(w, v);
    ShiftedElse(w, v);
  }

  lemma ShiftedLow(w: bv32, v: bv32)
    requires v < 0x1000
    ensures (((w | (v << 8)) >> 8) & 0xff) as bv8 == ((w >> 8) & 0xff) as bv8 | ((v & 0xff) as bv8)
  {
  }

  lemma ShiftedHigh(w: bv32, v: bv32)
    requires v < 0x1000
    ensures (((w | (v << 8)) >> 16) & 0xff) as bv8 == ((w >> 16) & 0xff) as bv8 | ((v >> 8) as bv8)
  {
  }

  lemma ShiftedElse(w: bv32, v: bv32)
    requires v < 0x1000
    ensures ((w | (v << 8)) >> 24) as bv8 == (w >> 24) as bv8 && ((w | (v << 8)) & 0xff) as bv8 == (w & 0xff) as bv8
  {
  }

  lemma OrByte3(w: bv32, v: bv32)
    requires v < 0x1000
    ensures WordByte(OrInto(w, v, 3), 2) == WordByte(w, 2) | ((v >> 8) as bv8)
    ensures WordByte(OrInto(w, v, 3), 3) == WordByte(w, 3) | ((v & 0xff) as bv8)
    ensures WordByte(OrInto(w, v, 3), 0) == WordByte(w, 0) && WordByte(OrInto(w, v, 3), 1) == WordByte(w, 1)
  {
    PlainLow(w, v);
    PlainHigh(w, v);
    PlainElse(w, v);
  }

  lemma PlainLow(w: bv32, v: bv32)
    requires v < 0x1000
    ensures ((w | v) & 0xff) as bv8 == (w & 0xff) as bv8 | ((v & 0xff) as bv8)
  {
  }

  lemma PlainHigh(w: bv32, v: bv32)
    requires v < 0x1000
    ensures (((w | v) >> 8) & 0xff) as bv8 == ((w >> 8) & 0xff) as bv8 | ((v >> 8) as bv8)
  {
  }

  lemma PlainElse(w: bv32, v: bv32)
    requires v < 0x1000
    ensures ((w | v) >> 24) as bv8 == (w >> 24) as bv8 && (((w | v) >> 16) & 0xff) as bv8 == ((w >> 16) & 0xff) as bv8
  {
  }

  /** The low bits of two neighbours are the byte they make; the bits above are the first neighbour's, at the bottom of the byte before. */
  lemma JoinedBits(a: bv8, b: bv8, t: nat)
    requires a < 64 && b < 64 && 0 < t < 4
    ensures var v := Joined(a as bv32, b as bv32, t);
            && v < 0x1000
            && (v & 0xff) as bv8 == (if t == 1 then (a << 2) | (b >> 4) else if t == 2 then (a << 4) | (b >> 2) else (a << 6) | b)
            && (v >> 8) as bv8 == (if t == 1 then 0 else if t == 2 then a >> 4 else a >> 2)
  {
  }

  /** What the second character of a byte leaves at its bottom is already there. */
  lemma SpillAgrees(z: bv8, a: bv8)
    ensures ((z << 2) | (a >> 4)) | (a >> 4) == (z << 2) | (a >> 4)
    ensures ((z << 4) | (a >> 2)) | (a >> 2) == (z << 4) | (a >> 2)
  {
  }

  /** Where byte `n` stands: its six-bit values end with character `i`. */
  lemma Place(i: nat, n: nat)
    requires i % 4 != 0 && n == ByteCount(i)
    ensures ByteCount(i + 1) == n + 1 && n % 3 == i % 4 - 1 && 4 * (n / 3) + n % 3 + 1 == i
    ensures n % 3 > 0 ==> n > 0 && (n - 1) / 3 == n / 3 && (n - 1) % 3 == n % 3 - 1
  {
    var k, r := i / 4, i % 4;
    assert i == 4 * k + r && n == 3 * k + (r - 1);
    ThreeWay(k, r - 1, n);
    FourWay(k, r, i);
  }

  lemma ThreeWay(k: nat, r: nat, n: nat)
    requires n == 3 * k + r && r < 3
    ensures n / 3 == k && n % 3 == r
    ensures r > 0 ==> n > 0 && (n - 1) / 3 == k && (n - 1) % 3 == r - 1
  {
  }

  lemma FourWay(k: nat, r: nat, i: nat)
    requires i == 4 * k + r && 0 < r < 4
    ensures ByteCount(i + 1) == 3 * k + r
  {
    if r == 3 { assert i + 1 == 4 * (k + 1) + 0; } else { assert i + 1 == 4 * k + (r + 1); }
  }

  lemma NoPlace(i: nat)
    requires i % 4 == 0
    ensures ByteCount(i + 1) == ByteCount(i)
  {
  }

  /** The array with twelve bits put where byte `n` is; a new word starts as 0. */
  function Put(words: seq<bv32>, v: bv32, n: nat): seq<bv32>
    requires |words| == (n + 3) / 4
  {
    if n % 4 == 0 then words + [OrInto(0, v, 0)] else words[n / 4 := OrInto(words[n / 4], v, n % 4)]
  }

  lemma ZeroWord()
    ensures WordByte(0, 0) == 0 && WordByte(0, 1) == 0 && WordByte(0, 2) == 0 && WordByte(0, 3) == 0
  {
  }

  lemma PutElsewhere(words: seq<bv32>, v: bv32, n: nat, k: nat)
    requires |words| == (n + 3) / 4 && k / 4 != n / 4
    ensures ByteOf(Put(words, v, n), k) == ByteOf(words, k)
  {
    hide WordByte, OrInto;
  }

  lemma PutHere(words: seq<bv32>, v: bv32, n: nat, spill: bv8, k: nat)
    requires Clamped(words, n) && v < 0x1000 && spill == (v >> 8) as bv8 && k / 4 == n / 4
    requires n % 4 > 0 ==> ByteOf(words, n - 1) | spill == ByteOf(words, n - 1)
    ensures ByteOf(Put(words, v, n), k) == if k == n then (v & 0xff) as bv8 else ByteOf(words, k)
  {
    hide WordByte, OrInto;
    var p := n % 4;
    var w := if p == 0 then 0 else words[n / 4];
    assert k % 4 < 4 && n == 4 * (n / 4) + p && k == 4 * (n / 4) + k % 4;
    InWord(n, k);
    ZeroWord();
    ZeroOr((v & 0xff) as bv8);
    OrBytes(w, v, p, k % 4);
    assert ByteOf(Put(words, v, n), k) == WordByte(OrInto(w, v, p), k % 4);
    if p > 0 {
      assert ByteOf(words, k) == WordByte(w, k % 4);
      if k == n { assert ByteOf(words, k) == 0; }
    }
  }

  /** One step of the parser keeps every byte made so far: the bits that spill into the byte before are there already. */
  lemma PutBytes(words: seq<bv32>, v: bv32, n: nat, spill: bv8)
    requires Clamped(words, n) && v < 0x1000 && spill == (v >> 8) as bv8
    requires n % 4 > 0 ==> ByteOf(words, n - 1) | spill == ByteOf(words, n - 1)
    ensures Clamped(Put(words, v, n), n + 1)
    ensures ByteOf(Put(words, v, n), n) == (v & 0xff) as bv8
    ensures forall k: nat :: k < n ==> ByteOf(Put(words, v, n), k) == ByteOf(words, k)
  {
    hide WordByte, OrInto;
    var r := Put(words, v, n);
    forall k: nat ensures ByteOf(r, k) == if k == n then (v & 0xff) as bv8 else ByteOf(words, k) {
      if k / 4 == n / 4 { PutHere(words, v, n, spill, k); } else { PutElsewhere(words, v, n, k); }
    }
    forall k: nat | n + 1 <= k < 4 * |r| ensures ByteOf(r, k) == 0 { Beyond(words, n, k); }
  }

  lemma Beyond(words: seq<bv32>, n: nat, k: nat)
    requires Clamped(words, n) && n <= k
    ensures ByteOf(words, k) == 0
  {
    hide WordByte;
    if k < 4 * |words| { assert ByteOf(words, k) == 0; }
  }

  lemma InWord(n: nat, k: nat)
    requires k / 4 == n / 4
    ensures (k % 4 == n % 4 <==> k == n) && (k % 4 + 1 == n % 4 <==> k == n - 1) && (n % 4 == 0 ==> k >= n)
  {
  }

  lemma ZeroOr(x: bv8)
    ensures 0 | x == x
  {
  }

  predicate Plain(c: char) { 0 <= IndexOf(c, 0) < 64 }

  /** The six-bit values of a text of the alphabet. */
  function Values(t: string): (c: seq<bv8>)
    requires forall k :: 0 <= k < |t| ==> Plain(t[k])
    ensures |c| == |t|
  {
    seq(|t|, k requires 0 <= k < |t| && Plain(t[k]) => IndexOf(t[k], 0) as bv8)
  }

  lemma ValueBits(t: string, k: nat)
    requires (forall j :: 0 <= j < |t| ==> Plain(t[j])) && k < |t|
    ensures Values(t)[k] < 64 && Bits(t[k]) == Values(t)[k] as bv32
  {
    hide IndexOf, MAP;
  }

  /** The place of the first padding character, or the end. */
  function PaddingIndex(s: string, from: nat): (k: nat)
    requires from <= |s|
    ensures from <= k <= |s|
    decreases |s| - from
  {
    if from == |s| || s[from] == '=' then from else PaddingIndex(s, from + 1)
  }

  lemma ByteForms(c: seq<bv8>, g: nat)
    ensures Byte(c, 3 * g) == (At(c, 4 * g) << 2) | (At(c, 4 * g + 1) >> 4)
    ensures Byte(c, 3 * g + 1) == (At(c, 4 * g + 1) << 4) | (At(c, 4 * g + 2) >> 2)
    ensures Byte(c, 3 * g + 2) == (At(c, 4 * g + 2) << 6) | At(c, 4 * g + 3)
  {
    hide At;
    assert (3 * g) / 3 == g && (3 * g + 1) / 3 == g && (3 * g + 2) / 3 == g;
  }

  /** The bits above the byte for the second character at place `t` of four. */
  function Spill(a: bv8, t: nat): bv8 { if t == 1 then 0 else if t == 2 then a >> 4 else a >> 2 }

  /** The byte that two neighbours make at place `t`. */
  function Pair(a: bv8, b: bv8, t: nat): bv8 {
    if t == 1 then (a << 2) | (b >> 4) else if t == 2 then (a << 4) | (b >> 2) else (a << 6) | b
  }

  lemma PairAt(c: seq<bv8>, g: nat, t: nat)
    requires 0 < t < 4
    ensures Pair(At(c, 4 * g + t - 1), At(c, 4 * g + t), t) == Byte(c, 3 * g + t - 1)
  {
    hide Byte, At;
    ByteForms(c, g);
  }

  lemma PairIs(c: seq<bv8>, i: nat, n: nat)
    requires 0 < i < |c| && i % 4 != 0 && n == ByteCount(i)
    ensures Pair(c[i - 1], c[i], i % 4) == Byte(c, n)
    ensures n % 3 > 0 ==> n > 0 && i > 1 && Byte(c, n - 1) == Pair(c[i - 2], c[i - 1], i % 4 - 1)
    ensures n % 3 == 0 <==> i % 4 == 1
  {
    hide Byte, Pair;
    Place(i, n);
    var g, t := n / 3, i % 4;
    assert n == 3 * g + t - 1 && i == 4 * g + t;
    PairAt(c, g, t);
    if t > 1 { PairAt(c, g, t - 1); }
  }

  function Or(a: bv8, b: bv8): bv8 { a | b }

  function Low(v: bv32): bv8 { (v & 0xff) as bv8 }

  function High(v: bv32): bv8 { ((v >> 8) & 0xff) as bv8 }

  lemma PairSpills(z: bv8, a: bv8, t: nat)
    requires 1 < t < 4
    ensures Or(Pair(z, a, t - 1), Spill(a, t)) == Pair(z, a, t - 1)
  {
    SpillAgrees(z, a);
  }

  /** What one step of the parser puts in is the byte the two characters make, and spills only what is there. */
  lemma StepIs(c: seq<bv8>, i: nat, n: nat)
    requires 0 < i < |c| && i % 4 != 0 && n == ByteCount(i) && (forall k :: 0 <= k < |c| ==> c[k] < 64)
    ensures var v := Joined(c[i - 1] as bv32, c[i] as bv32, i % 4);
            && v < 0x1000 && Low(v) == Byte(c, n)
            && (n % 3 > 0 ==> n > 0 && Or(Byte(c, n - 1), High(v)) == Byte(c, n - 1))
            && (n % 3 == 0 ==> High(v) == 0)
  {
    hide Joined, Byte, Pair, Spill, Low, High, Or;
    JoinedIs(c[i - 1], c[i], i % 4);
    PairIs(c, i, n);
    if n % 3 > 0 { PairSpills(c[i - 2], c[i - 1], i % 4); } else { NoSpill(c[i - 1]); }
  }

  lemma NoSpill(a: bv8)
    ensures Spill(a, 1) == 0
  {
  }

  lemma JoinedIs(a: bv8, b: bv8, t: nat)
    requires a < 64 && b < 64 && 0 < t < 4
    ensures var v := Joined(a as bv32, b as bv32, t); v < 0x1000 && Low(v) == Pair(a, b, t) && High(v) == Spill(a, t)
  {
    hide Joined;
    JoinedBits(a, b, t);
    HighIs(Joined(a as bv32, b as bv32, t));
  }

  lemma HighIs(v: bv32)
    requires v < 0x1000
    ensures High(v) == (v >> 8) as bv8
  {
  }

  lemma OrZero(x: bv8)
    ensures x | 0 == x
  {
  }

  lemma OrIs(a: bv8, b: bv8)
    ensures Or(a, b) == a | b
  {
  }

  lemma LowIs(v: bv32)
    ensures Low(v) == (v & 0xff) as bv8
  {
  }

  /** One step of the parser. */
  lemma StepKeeps(c: seq<bv8>, i: nat, n: nat, words: seq<bv32>)
    requires 0 < i < |c| && i % 4 != 0 && n == ByteCount(i) && (forall k :: 0 <= k < |c| ==> c[k] < 64)
    requires Clamped(words, n) && forall k: nat :: k < n ==> ByteOf(words, k) == Byte(c, k)
    ensures var r := Put(words, Joined(c[i - 1] as bv32, c[i] as bv32, i % 4), n);
            Clamped(r, n + 1) && forall k: nat :: k < n + 1 ==> ByteOf(r, k) == Byte(c, k)
  {
    hide Joined, Byte, WordByte, Put, OrInto, ByteOf, Low, High, Or;
    var v := Joined(c[i - 1] as bv32, c[i] as bv32, i % 4);
    StepIs(c, i, n);
    if n % 3 == 0 && n > 0 { OrZero(ByteOf(words, n - 1)); }
    HighIs(v);
    if n > 0 { OrIs(ByteOf(words, n - 1), High(v)); }
    LowIs(v);
    PutBytes(words, v, n, High(v));
  }

  lemma NothingClamped()
    ensures Clamped([], 0)
  {
  }

  lemma TextStep(t: string, i: nat, n: nat, words: seq<bv32>)
    requires (forall k :: 0 <= k < |t| ==> Plain(t[k])) && 0 < i < |t| && i % 4 != 0 && n == ByteCount(i)
    requires Clamped(words, n) && forall k: nat :: k < n ==> ByteOf(words, k) == Byte(Values(t), k)
    ensures var r := Put(words, Joined(Bits(t[i - 1]), Bits(t[i]), i % 4), n);
            Clamped(r, n + 1) && forall k: nat :: k < n + 1 ==> ByteOf(r, k) == Byte(Values(t), k)
  {
    hide Joined, Byte, WordByte, Put, OrInto, ByteOf, Bits, Plain, Clamped;
    var c := Values(t);
    forall k | 0 <= k < |c| ensures c[k] < 64 { ValueBits(t, k); }
    ValueBits(t, i - 1);
    ValueBits(t, i);
    StepKeeps(c, i, n, words);
  }

  /** The words of a text and the number of bytes; characters outside the alphabet are taken for what `indexOf` says of them. */
  method Parse(s: string) returns (words: seq<bv32>, nBytes: nat)
    ensures nBytes == ByteCount(PaddingIndex(s, 0)) && |words| == (nBytes + 3) / 4
    ensures (forall k :: 0 <= k < PaddingIndex(s, 0) ==> Plain(s[k])) ==>
              Clamped(words, nBytes) && BytesOf(words, nBytes) == Decode(Values(s[..PaddingIndex(s, 0)]))
  {
    hide Joined, Byte, WordByte, OrInto, ByteOf, Plain, Bits, Clamped;
    var length := PaddingIndex(s, 0);
    ghost var plain := forall k :: 0 <= k < length ==> Plain(s[k]);
    ghost var text := s[..length];
    ghost var c := if plain then Values(text) else [];
    words := [];
    nBytes := 0;
    assert Clamped(words, 0) by { NothingClamped(); }
    for i := 0 to length
      invariant nBytes == ByteCount(i) && |words| == (nBytes + 3) / 4
      invariant plain ==> Clamped(words, nBytes) && forall k: nat :: k < nBytes ==> ByteOf(words, k) == Byte(c, k)
    {
      if i % 4 != 0 {
        if plain { TextStep(text, i, nBytes, words); }
        Place(i, nBytes);
        words := Put(words, Joined(Bits(s[i - 1]), Bits(s[i]), i % 4), nBytes);
        nBytes := nBytes + 1;
      } else {
        NoPlace(i);
      }
    }
    if plain { assert BytesOf(words, nBytes) == Decode(c); }
  }

  // ----- the round trip

  lemma CharIsPlain(x: bv8)
    requires x < 64
    ensures Plain(Char(x)) && IndexOf(Char(x), 0) == x as nat && Char(x) != '='
  {
    hide MAP, IndexOf;
    MapLength();
    IndexOfFirst(x as nat, 0);
    Ranges(64);
    Different(x as nat, 64);
  }

  lemma {:induction false} PaddingAfter(t: string, pad: string, from: nat)
    requires from <= |t| && (forall k :: 0 <= k < |t| ==> t[k] != '=') && (pad == "" || pad[0] == '=')
    ensures PaddingIndex(t + pad, from) == |t|
    decreases |t| - from
  {
    if from < |t| { PaddingAfter(t, pad, from + 1); }
  }

  lemma BackToValue(x: bv8)
    ensures x as nat as bv8 == x
  {
  }

  /** Reading a text gives the six-bit values it was written from. */
  lemma ValuesOfText(c: seq<bv8>)
    requires forall k :: 0 <= k < |c| ==> c[k] < 64
    ensures forall k :: 0 <= k < |c| ==> Plain(Text(c)[k]) && Text(c)[k] != '='
    ensures Values(Text(c)) == c
  {
    hide IndexOf, Char, Plain, MAP;
    forall k | 0 <= k < |c| ensures Plain(Text(c)[k]) && Text(c)[k] != '=' && IndexOf(Text(c)[k], 0) == c[k] as nat && (c[k] as nat as bv8) == c[k] {
      CharIsPlain(c[k]);
      BackToValue(c[k]);
    }
  }

  /** Parsing what was stringified restores the words and their number of bytes, whatever that number is. */
  method RoundTrip(words: seq<bv32>, sigBytes: nat) returns (back: seq<bv32>, nBytes: nat)
    requires Clamped(words, sigBytes)
    ensures back == words && nBytes == sigBytes
  {
    hide Sextet, Byte, Char, Plain, ByteOf;
    ghost var c := Encode(BytesOf(words, sigBytes));
    var s := Stringify(words, sigBytes);
    back, nBytes := Parse(s);
    ValuesOfText(c);
    PaddingAfter(Text(c), Padding(|c|), 0);
    assert s[..|c|] == Text(c);
    DecodeEncode(BytesOf(words, sigBytes));
    CountsMatch(sigBytes);
    ClampedUnique(back, words, sigBytes);
  }
}

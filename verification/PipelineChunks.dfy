/** A reader of the chunked transfer coding (section 3.6.1 of RFC 2616), and what it reads from the bodies that are sent. */
module PipelineChunks {
  import opened Sequences
  import opened Wrappers
  import opened PipelineSteps
  import opened PipelineSafety

  // ----- numbers

  predicate IsHex(c: char) { '0' <= c <= '9' || 'a' <= c <= 'f' }

  function HexValue(c: char): (n: nat)
    requires IsHex(c)
    ensures n < 16
  {
    if c <= '9' then c as int - '0' as int else 10 + (c as int - 'a' as int)
  }

  /** The number some hexadecimal digits stand for. */
  function ReadHex(s: Bytes): Option<nat> {
    if s == "" then Some(0)
    else if !IsHex(s[|s| - 1]) then None
    else match ReadHex(s[..|s| - 1]) case None => None case Some(n) => Some(16 * n + HexValue(s[|s| - 1]))
  }

  lemma DigitRead(n: nat)
    requires n < 16
    ensures IsHex(Digit(n)) && HexValue(Digit(n)) == n
  {
  }

  lemma {:induction false} HexDigits(n: nat)
    ensures Hex(n) != "" && forall k :: 0 <= k < |Hex(n)| ==> IsHex(Hex(n)[k])
  {
    DigitRead(n % 16);
    if n >= 16 { HexDigits(n / 16); }
  }

  /** Reading the digits of a number gives the number back. */
  lemma {:induction false} HexReadBack(n: nat)
    ensures ReadHex(Hex(n)) == Some(n)
  {
    DigitRead(n % 16);
    var s := Hex(n);
    if n < 16 {
      assert s[..|s| - 1] == "";
    } else {
      HexReadBack(n / 16);
      assert s[..|s| - 1] == Hex(n / 16);
    }
  }

  // ----- the coding

  /** How many digits a text begins with. */
  function Digits(s: Bytes): (k: nat)
    ensures k <= |s|
  {
    if s == "" || !IsHex(s[0]) then 0 else 1 + Digits(s[1..])
  }

  datatype Decoded = Decoded(data: Bytes, rest: Bytes)

  /** The data of the chunks up to the one of size zero, and what follows that one's line. */
  function Unchunk(s: Bytes): Option<Decoded>
    decreases |s|
  {
    var k := Digits(s);
    if k == 0 || !(CRLF <= s[k..]) then None
    else
      var size, body := ReadHex(s[..k]), s[k + 2..];
      if size.None? then None
      else if size.value == 0 then Some(Decoded("", body))
      else if |body| < size.value || !(CRLF <= body[size.value..]) then None
      else
        match Unchunk(body[size.value + 2..])
        case None => None
        case Some(d) => Some(Decoded(body[..size.value] + d.data, d.rest))
  }

  lemma {:induction false} DigitsEnd(digits: Bytes, rest: Bytes)
    requires forall k :: 0 <= k < |digits| ==> IsHex(digits[k])
    requires rest != "" && !IsHex(rest[0])
    ensures Digits(digits + rest) == |digits|
  {
    if digits == "" {
      assert digits + rest == rest;
    } else {
      DigitsEnd(digits[1..], rest);
      assert (digits + rest)[1..] == digits[1..] + rest;
    }
  }

  lemma LineRead(n: nat, rest: Bytes)
    ensures var s, k := Hex(n) + CRLF + rest, |Hex(n)|;
            k > 0 && Digits(s) == k && s[..k] == Hex(n) && CRLF <= s[k..] && s[k + 2..] == rest
  {
    HexDigits(n);
    var s := Hex(n) + CRLF + rest;
    assert s == Hex(n) + (CRLF + rest);
    DigitsEnd(Hex(n), CRLF + rest);
  }

  lemma ChunkRead(data: Bytes, rest: Bytes)
    requires data != ""
    ensures var s := Hex(|data|) + CRLF + data + CRLF + rest;
            Unchunk(s) == match Unchunk(rest) case None => None case Some(d) => Some(Decoded(data + d.data, d.rest))
  {
    hide Hex, ReadHex, Digits;
    var after := data + CRLF + rest;
    var s := Hex(|data|) + CRLF + data + CRLF + rest;
    assert s == Hex(|data|) + CRLF + after;
    LineRead(|data|, after);
    HexReadBack(|data|);
    assert after[..|data|] == data && after[|data|..] == CRLF + rest && after[|data| + 2..] == rest;
  }

  lemma LastRead(rest: Bytes)
    ensures Unchunk("0\r\n" + rest) == Some(Decoded("", rest))
  {
    LineRead(0, rest);
    HexReadBack(0);
    assert Hex(0) == "0";
    assert "0\r\n" + rest == Hex(0) + CRLF + rest;
  }

  // ----- bodies

  /** The data that was asked for before the end. */
  function Data(parts: seq<Part>): Bytes {
    if parts == [] || parts[0].Terminator? then "" else parts[0].data + Data(parts[1..])
  }

  /** A body read from its front. */
  function Coded(plan: Plan, parts: seq<Part>): Bytes { if parts == [] then "" else Encode(plan, parts[0]) + Coded(plan, parts[1..]) }

  lemma {:induction false} CodedAdds(plan: Plan, parts: seq<Part>, part: Part)
    ensures Coded(plan, parts + [part]) == Coded(plan, parts) + Encode(plan, part)
  {
    hide Encode;
    if parts == [] {
      assert [part][1..] == [] && Coded(plan, []) == "";
      assert [] + [part] == [part];
      assert Encode(plan, part) + "" == "" + Encode(plan, part);
    } else {
      CodedAdds(plan, parts[1..], part);
      assert (parts + [part])[1..] == parts[1..] + [part];
      assert Encode(plan, parts[0]) + (Coded(plan, parts[1..]) + Encode(plan, part)) == Coded(plan, parts) + Encode(plan, part);
    }
  }

  lemma {:induction false} BodyIsCoded(plan: Plan, parts: seq<Part>)
    ensures Body(plan, parts) == Coded(plan, parts)
  {
    hide Encode;
    if parts != [] {
      var n := |parts| - 1;
      BodyIsCoded(plan, parts[..n]);
      CodedAdds(plan, parts[..n], parts[n]);
      assert parts[..n] + [parts[n]] == parts;
    }
  }

  /** No piece of data is empty: an empty chunk would end the body. */
  predicate NoneEmpty(parts: seq<Part>) { forall k :: 0 <= k < |parts| && parts[k].Chunk? ==> parts[k].data != "" }

  lemma {:induction false} CodedRead(plan: Plan, parts: seq<Part>)
    requires plan.chunked && NoneEmpty(parts) && Terminator in parts
    ensures var d := Unchunk(Coded(plan, parts));
            d.Some? && d.value.data == Data(parts) && plan.trailer + CRLF <= d.value.rest
  {
    hide Unchunk, Hex, NoneEmpty;
    var rest := Coded(plan, parts[1..]);
    match parts[0]
    case Terminator =>
      assert "0\r\n" + plan.trailer + CRLF + rest == "0\r\n" + (plan.trailer + CRLF + rest);
      LastRead(plan.trailer + CRLF + rest);
    case Chunk(data) =>
      NoneEmptyTail(parts);
      CodedRead(plan, parts[1..]);
      ChunkRead(data, rest);
  }

  lemma NoneEmptyTail(parts: seq<Part>)
    requires parts != [] && NoneEmpty(parts)
    ensures NoneEmpty(parts[1..]) && (parts[0].Chunk? ==> parts[0].data != "")
  {
  }

  /** Decoding the body of a chunked response that has ended gives the data that was asked for before its end, and its trailer. */
  lemma ChunkedBody(plan: Plan, parts: seq<Part>)
    requires plan.chunked && NoneEmpty(parts) && Terminator in parts
    ensures var d := Unchunk(Body(plan, parts));
            d.Some? && d.value.data == Data(parts) && plan.trailer + CRLF <= d.value.rest
  {
    hide Unchunk, Coded, Body;
    BodyIsCoded(plan, parts);
    CodedRead(plan, parts);
  }

  /** Without the coding the body is the data itself. */
  lemma {:induction false} PlainBody(plan: Plan, parts: seq<Part>)
    requires !plan.chunked && forall k :: 0 <= k < |parts| - 1 ==> parts[k].Chunk?
    ensures Body(plan, parts) == Data(parts)
  {
    hide Body, Data;
    BodyIsCoded(plan, parts);
    PlainCoded(plan, parts);
  }

  lemma {:induction false} PlainCoded(plan: Plan, parts: seq<Part>)
    requires !plan.chunked && forall k :: 0 <= k < |parts| - 1 ==> parts[k].Chunk?
    ensures Coded(plan, parts) == Data(parts)
  {
    if parts != [] {
      if parts[0].Terminator? {
        assert parts[1..] == [];
        assert "" + Coded(plan, []) == "";
      } else {
        PlainCoded(plan, parts[1..]);
      }
    }
  }

  lemma {:induction false} DataOfPrefix(a: seq<Part>, b: seq<Part>)
    requires a <= b && Terminator in a
    ensures Data(a) == Data(b)
  {
    if a[0].Chunk? { DataOfPrefix(a[1..], b[1..]); }
  }
}

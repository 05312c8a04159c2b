/**
 * The wire protocol of the V8 debugger: text arrives in pieces, frames are cut out of it. Text stands for its UTF-8 bytes,
 * one character a byte.
 */
module DebuggerProtocol {
  import opened Wrappers
  import opened Numerals

  datatype Response = Response(headers: map<string, Option<string>>, body: string)

  datatype State = State(
    raw: string,
    headers: map<string, Option<string>>,
    inBody: bool,
    contentLength: Option<int>,
    bodyStart: nat,
    reqSeq: nat,
    responses: seq<Response>)

  const END: string := "\r\n\r\n"

  // ----- finding and splitting

  /** The first place at or after `from` where `what` stands. */
  function Find(text: string, what: string, from: nat): (k: Option<nat>)
    ensures k.Some? ==> from <= k.value && k.value + |what| <= |text| && text[k.value..k.value + |what|] == what
    decreases |text| - from
  {
    if from + |what| > |text| then None
    else if text[from..from + |what|] == what then Some(from)
    else Find(text, what, from + 1)
  }

  function SkipSpaces(line: string, from: nat): (k: nat)
    requires from <= |line|
    ensures from <= k <= |line|
    decreases |line| - from
  {
    if from < |line| && line[from] == ' ' then SkipSpaces(line, from + 1) else from
  }

  /** The first two pieces of a line split at a colon and spaces. */
  function KeyValue(line: string): (string, Option<string>) {
    match Find(line, ": ", 0)
    case None => (line, None)
    case Some(k) =>
      var v := SkipSpaces(line, k + 1);
      (line[..k], Some(match Find(line, ": ", v) case None => line[v..] case Some(e) => line[v..e]))
  }

  /** The headers with those of a text added, line by line. */
  function ParseHeaders(text: string, headers: map<string, Option<string>>): map<string, Option<string>>
    decreases |text|
  {
    match Find(text, "\r\n", 0)
    case None => var (k, v) := KeyValue(text); AddHeader(headers, k, v)
    case Some(e) => var (k, v) := KeyValue(text[..e]); ParseHeaders(text[e + 2..], AddHeader(headers, k, v))
  }

  /** Assigning text to `__proto__` does nothing. */
  function AddHeader(headers: map<string, Option<string>>, k: string, v: Option<string>): map<string, Option<string>> {
    if k == "__proto__" then headers else headers[k := v]
  }

  // ----- numbers

  predicate IsBlank(c: char) { c == ' ' || '\t' <= c <= '\r' }

  /** A decimal numeral with its sign. */
  function Numeral(n: int): string { if n < 0 then "-" + Decimal(-n) else Decimal(n) }

  function Trim(s: string): string
    decreases |s|
  {
    if s == "" then "" else if IsBlank(s[0]) then Trim(s[1..]) else if IsBlank(s[|s| - 1]) then Trim(s[..|s| - 1]) else s
  }

  function Signed(sign: char, n: int): int { if sign == '-' then -n else n }

  /** The whole number a header value stands for, if it does: nothing is zero, and there may be blanks around it and a sign. */
  function Number(value: string): Option<int> {
    var s := Trim(value);
    if |s| >= 2 && (s[0] == '-' || s[0] == '+') then
      match Digits(s[1..]) case None => None case Some(n) => Some(Signed(s[0], n))
    else match Digits(s) case None => None case Some(n) => Some(n)
  }

  lemma NumberNumeral(n: int)
    ensures Number(Numeral(n)) == Some(n)
  {
    var s := Numeral(n);
    hide Digits, Decimal;
    if n < 0 {
      DigitsDecimal(-n);
      assert s[1..] == Decimal(-n);
      assert !IsBlank(s[0]) && IsDigit(s[|s| - 1]);
    } else {
      DigitsDecimal(n);
      assert IsDigit(s[0]) && IsDigit(s[|s| - 1]);
    }
    assert Trim(s) == s;
  }

  // ----- slices

  /** `~~` of a whole number; the numbers that come up are never too large for it, since no buffer is that long. */
  function ToInt32(x: int): int {
    if x >= -0x8000_0000 then x else (x + 0x8000_0000) % 0x1_0000_0000 - 0x8000_0000
  }

  /** A place as `Buffer.slice` takes it: from the end if it is negative, and never outside. */
  function Clamp(x: int, len: nat): (k: nat)
    ensures k <= len
  {
    var y := ToInt32(x);
    if y < 0 then (if y + len < 0 then 0 else y + len) else if y > len then len else y
  }

  function Slice(text: string, start: int, end: int): string {
    var a, b := Clamp(start, |text|), Clamp(end, |text|);
    if b < a then "" else text[a..b]
  }

  // ----- the parser

  /** Where the body starts is known, and is not beyond the text. */
  predicate Valid(s: State) { s.inBody ==> 4 <= s.bodyStart <= |s.raw| }

  function ContentLength(headers: map<string, Option<string>>): Option<int> {
    if "Content-Length" in headers && headers["Content-Length"].Some? then Number(headers["Content-Length"].value) else None
  }

  /** The text up to the end of the headers has come in. */
  function WithHeaders(s: State, k: nat): State
    requires k + 4 <= |s.raw|
  {
    var h := ParseHeaders(s.raw[..k], s.headers);
    s.(headers := h, contentLength := ContentLength(h), bodyStart := k + 4, inBody := true)
  }

  /** The whole body has come in. */
  predicate BodyReady(s: State) { s.inBody && s.contentLength.Some? && |s.raw| - s.bodyStart >= s.contentLength.value }

  /** Where the body ends, as the header says. */
  function BodyEnd(s: State): int
    requires s.contentLength.Some?
  {
    s.bodyStart + s.contentLength.value
  }

  /** The text that is handed on to the next response. */
  function Rest(s: State): string
    requires s.contentLength.Some?
  {
    s.raw[Clamp(BodyEnd(s), |s.raw|)..]
  }

  /** The response is handed on, and what follows it is new text. */
  function NextResponse(s: State): (t: State)
    requires BodyReady(s)
    ensures Valid(t)
  {
    s.(raw := Rest(s), headers := map[], inBody := false, reqSeq := 1,
       responses := s.responses + [Response(s.headers, Slice(s.raw, s.bodyStart, BodyEnd(s)))])
  }

  /** Cuts off all the frames that are complete; nothing if that does not come to an end. */
  function Pump(s: State): (t: Option<State>)
    requires Valid(s)
    ensures t.Some? ==> Valid(t.value)
    decreases |s.raw|, !s.inBody
  {
    if s.inBody then
      if !BodyReady(s) then Some(s)
      else if |Rest(s)| < |s.raw| then Pump(NextResponse(s))
      else None
    else
      match Find(s.raw, END, 0)
      case None => Some(s)
      case Some(k) => Pump(WithHeaders(s, k))
  }

  function Execute(s: State, d: string): (t: Option<State>)
    requires Valid(s)
    ensures t.Some? ==> Valid(t.value)
  {
    Pump(s.(raw := s.raw + d))
  }

  /** More text, if the parser has come to rest. */
  function Then(s: Option<State>, d: string): (t: Option<State>)
    requires s.Some? ==> Valid(s.value)
    ensures t.Some? ==> Valid(t.value)
  {
    if s.None? then None else Execute(s.value, d)
  }

  function Initial(): State { State("", map[], false, None, 0, 1, []) }

  // ----- when the recursion comes to an end

  /** The text handed on is shorter if and only if the body ends after the start of the text, counted from whichever end. */
  lemma RestShorter(s: State)
    requires Valid(s) && BodyReady(s)
    ensures var end := ToInt32(BodyEnd(s));
            |Rest(s)| < |s.raw| <==> end > 0 || (end < 0 && |s.raw| + end > 0)
  {
  }

  /** The state as `execute` finds it after the header has been looked for. */
  function Read(s: State): State {
    if s.inBody then s else match Find(s.raw, END, 0) case None => s case Some(k) => WithHeaders(s, k)
  }

  /** `execute` returns without calling `_newRes`. */
  predicate Resting(s: State) { !BodyReady(Read(s)) }

  /** The state after `n` calls of `_newRes`, or when there are no more. */
  function Turns(s: State, n: nat): State
    decreases n
  {
    if n == 0 || Resting(s) then s else Turns(NextResponse(Read(s)), n - 1)
  }

  /** What is known about the header comes from the text there is. */
  predicate Own(s: State) {
    if s.inBody then
      && 4 <= s.bodyStart && Find(s.raw, END, 0) == Some(s.bodyStart - 4)
      && s.headers == ParseHeaders(s.raw[..s.bodyStart - 4], map[]) && s.contentLength == ContentLength(s.headers)
    else s.headers == map[]
  }

  lemma OwnValid(s: State)
    requires Own(s)
    ensures Valid(s)
  {
  }

  lemma OwnInitial()
    ensures Own(Initial())
  {
  }

  lemma OwnMore(s: State, d: string)
    requires Own(s)
    ensures Own(s.(raw := s.raw + d))
  {
    hide ParseHeaders, Find, ContentLength;
    if s.inBody {
      FindStays(s.raw, d, END, 0);
      FindFits(s.raw, END, 0);
      assert (s.raw + d)[..s.bodyStart - 4] == s.raw[..s.bodyStart - 4];
    }
  }

  lemma FindFits(text: string, what: string, from: nat)
    ensures var k := Find(text, what, from); k.Some? ==> k.value + |what| <= |text|
  {
  }

  /** Every state a parser gets into is of that kind. */
  lemma {:induction false} OwnPump(s: State)
    requires Own(s)
    ensures Valid(s) && (Pump(s).Some? ==> Own(Pump(s).value))
    decreases |s.raw|, !s.inBody
  {
    hide ParseHeaders, Find, ContentLength, Clamp;
    OwnValid(s);
    if s.inBody {
      if BodyReady(s) && |Rest(s)| < |s.raw| { OwnPump(NextResponse(s)); }
    } else {
      match Find(s.raw, END, 0)
      case None =>
      case Some(k) => OwnPump(WithHeaders(s, k));
    }
  }

  lemma OwnExecute(s: State, d: string)
    requires Own(s)
    ensures Valid(s) && (Execute(s, d).Some? ==> Own(Execute(s, d).value))
  {
    hide Pump, Own;
    OwnValid(s);
    OwnMore(s, d);
    OwnPump(s.(raw := s.raw + d));
  }

  /** A header that has been read is read the same way again from the same text. */
  lemma ReadAgain(r: State, t: State)
    requires Own(r) && r.inBody && Own(t) && !t.inBody && t.raw == r.raw
    ensures Read(t) == t.(headers := r.headers, contentLength := r.contentLength, bodyStart := r.bodyStart, inBody := true)
  {
    hide ParseHeaders, Find, ContentLength;
  }

  lemma OwnRead(s: State)
    requires Own(s)
    ensures Own(Read(s)) && Read(s).raw == s.raw
  {
    hide ParseHeaders, Find, ContentLength;
  }

  /** If the whole text is handed on, the next call finds the same header and hands it on again. */
  lemma Looping(s: State)
    requires Own(s) && !Resting(s) && Rest(Read(s)) == s.raw
    ensures var t := NextResponse(Read(s)); Own(t) && !Resting(t) && t.raw == s.raw && Rest(Read(t)) == t.raw
  {
    hide ParseHeaders, Find, ContentLength, Clamp, Slice, Read, Own, NextResponse, Rest, BodyReady;
    var r := Read(s);
    OwnRead(s);
    NextIs(r);
    ReadAgain(r, NextResponse(r));
    SameEnd(r, Read(NextResponse(r)));
  }

  /** Between two responses nothing is known about a header. */
  lemma NextIs(r: State)
    requires BodyReady(r)
    ensures var t := NextResponse(r); r.inBody && !t.inBody && Own(t) && t.raw == Rest(r)
  {
    hide Rest, Slice;
  }

  lemma SameEnd(r: State, t: State)
    requires BodyReady(r)
    requires t.raw == r.raw && t.bodyStart == r.bodyStart && t.contentLength == r.contentLength && t.inBody
    ensures BodyReady(t) && Rest(t) == Rest(r)
  {
    hide Clamp;
  }

  lemma {:induction false} LoopsForever(s: State, n: nat)
    requires Own(s) && !Resting(s) && Rest(Read(s)) == s.raw
    ensures !Resting(Turns(s, n))
    decreases n
  {
    hide Own, Read;
    if n > 0 {
      Looping(s);
      LoopsForever(NextResponse(Read(s)), n - 1);
    }
  }

  /** Calling `_newRes` over and over comes to an end if and only if `Pump` has a result, which is the state then. */
  lemma {:induction false} PumpEnds(s: State) returns (n: nat)
    requires Own(s)
    ensures Valid(s)
    ensures Pump(s).Some? ==> Resting(Turns(s, n)) && Pump(s) == Some(Read(Turns(s, n)))
    ensures Pump(s).None? ==> forall m: nat :: !Resting(Turns(s, m))
    decreases |s.raw|
  {
    hide ParseHeaders, Find, ContentLength, Clamp;
    OwnValid(s);
    var r := Read(s);
    OwnValid(r);
    assert Pump(s) == Pump(r);
    n := 0;
    if BodyReady(r) {
      var t := NextResponse(r);
      if |Rest(r)| < |r.raw| {
        var m := PumpEnds(t);
        n := m + 1;
        if Pump(s).None? { forall j: nat ensures !Resting(Turns(s, j)) { if j > 0 { assert Turns(s, j) == Turns(t, j - 1); } } }
      } else {
        assert Rest(r) == r.raw;
        forall j: nat ensures !Resting(Turns(s, j)) { LoopsForever(s, j); }
      }
    }
  }

  // ----- splitting the text

  /** The body ends behind the start of the text, at the place the length says or within the header. */
  predicate EndsInside(s: State)
    requires s.contentLength.Some?
  {
    var end := ToInt32(BodyEnd(s));
    0 <= end && (end <= s.bodyStart || end == BodyEnd(s))
  }

  lemma LengthEndsInside(s: State)
    requires s.contentLength.Some? && s.contentLength.value >= 0
    ensures EndsInside(s)
  {
  }

  /** Every frame cut off on the way ends inside its text, as all do whose length is not below zero. */
  predicate Forward(s: State)
    requires Valid(s)
    decreases |s.raw|, !s.inBody
  {
    if s.inBody then
      BodyReady(s) ==> EndsInside(s) && (|Rest(s)| < |s.raw| ==> Forward(NextResponse(s)))
    else
      match Find(s.raw, END, 0)
      case None => true
      case Some(k) => Forward(WithHeaders(s, k))
  }

  /** No frame cut off on the way has a length below zero. */
  predicate NoneNegative(s: State)
    requires Valid(s)
    decreases |s.raw|, !s.inBody
  {
    if s.inBody then
      BodyReady(s) ==> s.contentLength.value >= 0 && (|Rest(s)| < |s.raw| ==> NoneNegative(NextResponse(s)))
    else
      match Find(s.raw, END, 0)
      case None => true
      case Some(k) => NoneNegative(WithHeaders(s, k))
  }

  /** That is enough for the recursion to end, and for frames to end inside their text. */
  lemma {:induction false} NoneNegativeForward(s: State)
    requires Valid(s) && NoneNegative(s)
    ensures Forward(s) && Pump(s).Some?
    decreases |s.raw|, !s.inBody
  {
    hide ParseHeaders, Find, Slice, Clamp, ToInt32;
    if s.inBody {
      if BodyReady(s) {
        LengthEndsInside(s);
        ShorterUnlessNegative(s);
        NoneNegativeForward(NextResponse(s));
      }
    } else {
      match Find(s.raw, END, 0)
      case None =>
      case Some(k) => NoneNegativeForward(WithHeaders(s, k));
    }
  }

  lemma ShorterUnlessNegative(s: State)
    requires Valid(s) && BodyReady(s) && s.contentLength.value >= 0
    ensures |Rest(s)| < |s.raw|
  {
  }

  lemma {:induction false} FindStays(text: string, more: string, what: string, from: nat)
    requires Find(text, what, from).Some?
    ensures Find(text + more, what, from) == Find(text, what, from)
    decreases |text| - from
  {
    assert (text + more)[from..from + |what|] == text[from..from + |what|];
    if text[from..from + |what|] != what { FindStays(text, more, what, from + 1); }
  }

  /** What is cut off a text that goes on is the same, and the rest goes on likewise, if and only if the body ends inside the
      text there is, or so far before it that the whole text is handed on either way. */
  lemma FrameSplit(s: State, d: string)
    requires Valid(s) && BodyReady(s) && d != ""
    ensures var more, t := s.(raw := s.raw + d), NextResponse(s);
            var end := ToInt32(BodyEnd(s));
            NextResponse(more) == t.(raw := t.raw + d) <==> 0 <= end <= |s.raw| || |more.raw| + end <= 0
  {
    hide ToInt32;
    var more, t := s.(raw := s.raw + d), NextResponse(s);
    var end := ToInt32(BodyEnd(s));
    assert ToInt32(s.bodyStart) == s.bodyStart by { SmallStays(s.bodyStart); }
    var a, b := Clamp(BodyEnd(s), |s.raw|), Clamp(BodyEnd(s), |more.raw|);
    assert t.raw + d == more.raw[a..];
    assert |more.raw[b..]| == |more.raw| - b;
    if 0 <= end <= |s.raw| || |more.raw| + end <= 0 {
      assert a == b;
      assert Slice(s.raw, s.bodyStart, BodyEnd(s)) == Slice(more.raw, s.bodyStart, BodyEnd(s));
    } else {
      assert a != b;
    }
  }

  lemma SmallStays(x: int)
    ensures x >= -0x8000_0000 ==> ToInt32(x) == x
  {
  }

  /** Text that comes later does not change what has been cut off. */
  lemma {:induction false} PumpLater(s: State, d: string)
    requires Valid(s) && Forward(s.(raw := s.raw + d))
    ensures Then(Pump(s), d) == Execute(s, d)
    decreases |s.raw|, !s.inBody
  {
    hide ParseHeaders, Find, ToInt32, Clamp, Slice;
    var more := s.(raw := s.raw + d);
    if d == "" {
      assert more.raw == s.raw;
      PumpTwice(s);
    } else if s.inBody {
      if BodyReady(s) {
        var t := NextResponse(s);
        FrameSplit(s, d);
        assert NextResponse(more) == t.(raw := t.raw + d);
        if |Rest(s)| < |s.raw| { PumpLater(t, d); }
      }
    } else {
      match Find(s.raw, END, 0)
      case None =>
      case Some(k) =>
        FindStays(s.raw, d, END, 0);
        assert more.raw[..k] == s.raw[..k];
        var t := WithHeaders(s, k);
        assert WithHeaders(more, k) == t.(raw := t.raw + d);
        PumpLater(t, d);
    }
  }

  lemma {:induction false} PumpTwice(s: State)
    requires Valid(s)
    ensures Then(Pump(s), "") == Pump(s)
    decreases |s.raw|, !s.inBody
  {
    hide ParseHeaders, Find, Clamp, Slice;
    assert s.raw + "" == s.raw;
    if s.inBody {
      if BodyReady(s) && |Rest(s)| < |s.raw| { PumpTwice(NextResponse(s)); }
    } else {
      match Find(s.raw, END, 0)
      case None =>
      case Some(k) => PumpTwice(WithHeaders(s, k));
    }
  }

  /** However a text is split in two, the responses and what is left over are the same, if no frame in it ends before the
      start of its text. */
  lemma SplitInvariant(s: State, a: string, b: string)
    requires Valid(s) && Forward(s.(raw := s.raw + (a + b)))
    ensures Then(Execute(s, a), b) == Execute(s, a + b)
  {
    hide Pump, Forward;
    var t := s.(raw := s.raw + a);
    assert (s.raw + a) + b == s.raw + (a + b);
    PumpLater(t, b);
  }

  function Join(pieces: seq<string>): string { if pieces == [] then "" else pieces[0] + Join(pieces[1..]) }

  function ExecuteAll(s: State, pieces: seq<string>): (t: Option<State>)
    requires Valid(s)
    ensures t.Some? ==> Valid(t.value)
    decreases |pieces|
  {
    if pieces == [] then Some(s)
    else match Execute(s, pieces[0]) case None => None case Some(t) => ExecuteAll(t, pieces[1..])
  }

  /** Every state that a new parser gets into is of its own making. */
  lemma {:induction false} OwnAll(s: State, pieces: seq<string>)
    requires Own(s)
    ensures Valid(s) && (ExecuteAll(s, pieces).Some? ==> Own(ExecuteAll(s, pieces).value))
    decreases |pieces|
  {
    hide Own, Execute;
    OwnValid(s);
    if pieces != [] {
      OwnExecute(s, pieces[0]);
      if Execute(s, pieces[0]).Some? { OwnAll(Execute(s, pieces[0]).value, pieces[1..]); }
    }
  }

  /** So, whatever a new parser has been fed, taking in the next piece comes to an end exactly when `Execute` has a result. */
  lemma RunEnds(pieces: seq<string>, d: string) returns (n: nat)
    requires ExecuteAll(Initial(), pieces).Some?
    ensures var s := ExecuteAll(Initial(), pieces).value;
            var more := s.(raw := s.raw + d);
            && Valid(s)
            && (Execute(s, d).Some? ==> Resting(Turns(more, n)) && Execute(s, d) == Some(Read(Turns(more, n))))
            && (Execute(s, d).None? ==> forall m: nat :: !Resting(Turns(more, m)))
  {
    hide Own, Pump, Turns, Resting, Read;
    var s := ExecuteAll(Initial(), pieces).value;
    OwnInitial();
    OwnAll(Initial(), pieces);
    OwnValid(s);
    OwnMore(s, d);
    n := PumpEnds(s.(raw := s.raw + d));
  }

  lemma {:induction false} ForwardLater(s: State, d: string)
    requires Valid(s) && Forward(s.(raw := s.raw + d)) && Pump(s).Some?
    ensures Forward(Pump(s).value.(raw := Pump(s).value.raw + d))
    decreases |s.raw|, !s.inBody
  {
    hide ParseHeaders, Find, ToInt32, Clamp, Slice;
    var more := s.(raw := s.raw + d);
    if d == "" {
      assert more.raw == s.raw;
      ForwardTwice(s);
      var t := Pump(s).value;
      assert t.raw + d == t.raw;
    } else if s.inBody {
      if BodyReady(s) {
        var t := NextResponse(s);
        FrameSplit(s, d);
        assert NextResponse(more) == t.(raw := t.raw + d);
        ForwardLater(t, d);
      }
    } else {
      match Find(s.raw, END, 0)
      case None =>
      case Some(k) =>
        FindStays(s.raw, d, END, 0);
        assert more.raw[..k] == s.raw[..k];
        assert WithHeaders(more, k) == WithHeaders(s, k).(raw := s.raw + d);
        ForwardLater(WithHeaders(s, k), d);
    }
  }

  lemma {:induction false} ForwardTwice(s: State)
    requires Valid(s) && Forward(s) && Pump(s).Some?
    ensures Forward(Pump(s).value)
    decreases |s.raw|, !s.inBody
  {
    hide ParseHeaders, Find, Clamp, Slice, ToInt32;
    if s.inBody {
      if BodyReady(s) { ForwardTwice(NextResponse(s)); }
    } else {
      match Find(s.raw, END, 0)
      case None =>
      case Some(k) => ForwardTwice(WithHeaders(s, k));
    }
  }

  /** However a text is split into pieces, feeding them one after the other gives what feeding the whole gives. */
  lemma {:induction false} PiecesInvariant(s: State, pieces: seq<string>)
    requires Valid(s) && pieces != [] && Forward(s.(raw := s.raw + Join(pieces)))
    ensures ExecuteAll(s, pieces) == Execute(s, Join(pieces))
    decreases |pieces|
  {
    hide Pump, Forward;
    var first, rest := pieces[0], Join(pieces[1..]);
    SplitInvariant(s, first, rest);
    if |pieces| == 1 {
      assert Join(pieces) == first + "" == first;
    } else if Execute(s, first).Some? {
      var t := s.(raw := s.raw + first);
      assert t.raw + rest == s.raw + Join(pieces);
      ForwardLater(t, rest);
      PiecesInvariant(Execute(s, first).value, pieces[1..]);
    }
  }

  // ----- lengths below zero

  /** Between two responses, a text that begins with a header line of one length. */
  lemma ReadNumber(s: State, n: int, rest: string)
    requires Between(s) && s.raw == Header(n) + rest
    ensures Read(s) == s.(headers := map["Content-Length" := Some(Numeral(n))], contentLength := Some(n), bodyStart := |Header(n)|, inBody := true)
  {
    hide ParseHeaders, Find, Numeral, Number;
    var line := "Content-Length: " + Numeral(n);
    HeaderRead(n);
    NumberNumeral(n);
    assert s.raw == line + END + rest;
    FindFirst(line, END, rest, 0);
    assert s.raw[..|line|] == line;
  }

  /** A frame that ends one place before the start of its text: in one piece it gives the body "11" and leaves "x", in two it
      gives an empty body and leaves more. */
  lemma SplitMatters()
    ensures var header := "Content-Length: -24\r\n\r\n";
            && Execute(Initial(), header + "11x") == Some(AfterNegative("11", "x"))
            && Then(Execute(Initial(), header), "11x") == Some(AfterNegative("", "\n11x"))
  {
    hide ParseHeaders, Find, Numeral, Execute, Pump;
    var header := "Content-Length: -24\r\n\r\n";
    Numeral24();
    assert header == Header(-24);
    PumpNegative(header + "11x", "11x", "11", "x");
    PumpNegative(header, "", "", "\n");
    MoreAfter();
  }

  lemma MoreAfter()
    ensures Execute(AfterNegative("", "\n"), "11x") == Some(AfterNegative("", "\n11x"))
  {
    hide Pump;
    assert "\n" + "11x" == "\n11x";
    NoEnd(AfterNegative("", "\n11x"));
  }

  lemma Numeral24()
    ensures Numeral(-24) == "-24" && Numeral(-23) == "-23"
  {
    assert Decimal(2) == "2";
    assert Decimal(24) == "24" && Decimal(23) == "23";
  }

  lemma NoEnd(t: State)
    requires !t.inBody && |t.raw| <= 4 && t.raw != END
    ensures Pump(t) == Some(t)
  {
    if |t.raw| == 4 { assert t.raw[0..4] == t.raw; }
  }

  lemma PumpNegative(text: string, more: string, body: string, rest: string)
    requires text == Header(-24) + more && |Header(-24)| == 23 && Numeral(-24) == "-24"
    requires |more| <= 3 && rest == text[|text| - 1..] && body == if more == "" then "" else more[..|more| - 1]
    ensures Execute(Initial(), text) == Some(AfterNegative(body, rest))
  {
    hide ParseHeaders, Find, Numeral, Clamp, Slice, Pump, Execute, Read, ToInt32, Number;
    var s := Started(text);
    ReadNumber(s, -24, more);
    var r := Initial().(raw := text, headers := map["Content-Length" := Some("-24")], contentLength := Some(-24), bodyStart := 23, inBody := true);
    StartedRead(text, r);
    CutNegative(r, more, body, rest);
    NoEnd(AfterNegative(body, rest));
  }

  function Started(text: string): (s: State)
    ensures Between(s) && s.raw == text && s == Initial().(raw := text)
  {
    Initial().(raw := text)
  }

  lemma StartedRead(text: string, r: State)
    requires r == Read(Started(text)) && Valid(r)
    ensures Execute(Initial(), text) == Pump(r)
  {
    hide ParseHeaders, Find, Clamp, Slice, Number;
    assert "" + text == text;
  }

  lemma CutNegative(r: State, more: string, body: string, rest: string)
    requires r.inBody && r.bodyStart == 23 && r.contentLength == Some(-24) && r.headers == map["Content-Length" := Some("-24")]
    requires |r.raw| == 23 + |more| && r.raw[23..] == more && r.reqSeq == 1 && r.responses == []
    requires rest == r.raw[|r.raw| - 1..] && body == if more == "" then "" else more[..|more| - 1]
    ensures Valid(r) && Pump(r) == Pump(AfterNegative(body, rest))
  {
    hide ParseHeaders, Find, Number;
    assert BodyEnd(r) == -1 && Rest(r) == rest;
    assert Slice(r.raw, 23, -1) == body;
    assert NextResponse(r) == AfterNegative(body, rest);
  }

  function AfterNegative(body: string, rest: string): State {
    Initial().(raw := rest, contentLength := Some(-24), bodyStart := 23, responses := [Response(map["Content-Length" := Some("-24")], body)])
  }

  /** A frame that ends at the start of its text: the whole text is handed on for ever. */
  lemma Endless(n: nat)
    ensures var s := Initial().(raw := "Content-Length: -23\r\n\r\n");
            Own(s) && Execute(Initial(), s.raw) == None && !Resting(Turns(s, n))
  {
    hide ParseHeaders, Find, Numeral;
    var s := Initial().(raw := "Content-Length: -23\r\n\r\n");
    Numeral24();
    assert s.raw == Header(-23) + "";
    ReadNumber(s, -23, "");
    assert "" + s.raw == s.raw;
    assert Pump(s) == Pump(Read(s));
    LoopsForever(s, n);
  }

  // ----- serialized frames

  /** The header of a text of some length. */
  function Header(n: int): string { "Content-Length: " + Numeral(n) + END }

  predicate Without(text: string, c: char) { forall k :: 0 <= k < |text| ==> text[k] != c }

  lemma {:induction false} FindFirst(text: string, what: string, rest: string, from: nat)
    requires what != "" && Without(text, what[0]) && from <= |text|
    ensures Find(text + what + rest, what, from) == Some(|text|)
    decreases |text| - from
  {
    var all := text + what + rest;
    if from < |text| {
      assert all[from..from + |what|][0] == text[from];
      FindFirst(text, what, rest, from + 1);
    } else {
      assert all[from..from + |what|] == what;
    }
  }

  lemma {:induction false} FindNone(text: string, what: string, from: nat)
    requires what != "" && Without(text, what[0])
    ensures Find(text, what, from) == None
    decreases |text| - from
  {
    if from + |what| <= |text| {
      assert text[from..from + |what|][0] == text[from];
      FindNone(text, what, from + 1);
    }
  }

  /** The header of a frame is read back. */
  lemma HeaderRead(n: int)
    ensures var header := "Content-Length: " + Numeral(n);
            Without(header, '\r') && ParseHeaders(header, map[]) == map["Content-Length" := Some(Numeral(n))]
  {
    var digits := Numeral(n);
    var header := "Content-Length: " + digits;
    NumeralClean(n);
    FindNone(header, "\r\n", 0);
    assert header == "Content-Length" + ": " + digits;
    FindFirst("Content-Length", ": ", digits, 0);
    assert header[15] == ' ' && header[16] == digits[0];
    assert SkipSpaces(header, 15) == 16;
    assert header[16..] == digits;
    NoColon(header, 16);
    assert Find(header, ": ", 0) == Some(14) && header[..14] == "Content-Length";
    assert KeyValue(header) == ("Content-Length", Some(digits));
  }

  lemma NumeralClean(n: int)
    ensures Numeral(n) != "" && forall k :: 0 <= k < |Numeral(n)| ==> IsDigit(Numeral(n)[k]) || Numeral(n)[k] == '-'
  {
  }

  lemma {:induction false} NoColon(text: string, from: nat)
    requires from <= |text| && forall k :: from <= k < |text| ==> text[k] != ':'
    ensures Find(text, ": ", from) == None
    decreases |text| - from
  {
    if from + 2 <= |text| {
      assert text[from..from + 2][0] == text[from];
      NoColon(text, from + 1);
    }
  }

  /** A parser between two responses. */
  predicate Between(s: State) { !s.inBody && s.headers == map[] }
}

/** What the parser makes of whole messages: a header of any number of lines, an empty line and a body of the length announced. */
module DebuggerMessages {
  import opened Wrappers
  import opened Numerals
  import opened DebuggerProtocol

  // ----- one line

  function Spaces(n: nat): (s: string)
    ensures |s| == n && forall k :: 0 <= k < n ==> s[k] == ' '
  {
    seq(n, k => ' ')
  }

  /** No colon that is followed by a space. */
  predicate NoSeparator(text: string) { forall k :: 0 <= k < |text| - 1 && text[k] == ':' ==> text[k + 1] != ' ' }

  predicate At(text: string, what: string, k: nat) { k + |what| <= |text| && text[k..k + |what|] == what }

  lemma {:induction false} FindAt(text: string, what: string, from: nat, k: nat)
    requires from <= k && At(text, what, k) && forall j :: from <= j < k ==> !At(text, what, j)
    ensures Find(text, what, from) == Some(k)
    decreases k - from
  {
    assert from < k ==> !At(text, what, from);
    if from < k { FindAt(text, what, from + 1, k); }
  }

  lemma {:induction false} FindNowhere(text: string, what: string, from: nat)
    requires forall j :: from <= j <= |text| ==> !At(text, what, j)
    ensures Find(text, what, from) == None
    decreases |text| - from
  {
    if from + |what| <= |text| {
      assert !At(text, what, from);
      if from < |text| { FindNowhere(text, what, from + 1); }
    }
  }

  lemma {:induction false} SpacesSkipped(line: string, from: nat, to: nat)
    requires from <= to && to <= |line| && (forall k :: from <= k < to ==> line[k] == ' ') && (to < |line| ==> line[to] != ' ')
    ensures SkipSpaces(line, from) == to
    decreases |line| - from
  {
    if from < to { SpacesSkipped(line, from + 1, to); }
  }

  lemma Apart(line: string, j: nat)
    ensures At(line, ": ", j) <==> j + 2 <= |line| && line[j] == ':' && line[j + 1] == ' '
  {
    if j + 2 <= |line| { assert line[j..j + 2] == [line[j], line[j + 1]]; }
  }

  /** A line is split at its first colon that is followed by a space; the value goes up to the next one. */
  lemma LineRead(key: string, n: nat, value: string, tail: string)
    requires NoSeparator(key) && NoSeparator(value) && n > 0 && (value != "" ==> value[0] != ' ')
    requires tail == "" || (tail[0] == ':' && |tail| > 1 && tail[1] == ' ')
    ensures KeyValue(key + ":" + Spaces(n) + value + tail) == (key, Some(value))
  {
    hide Spaces, NoSeparator, KeyValue;
    var pre := key + (":" + Spaces(n));
    Regroup(key, ":", Spaces(n), value, tail);
    SplitLine(pre + (value + tail), pre, key, n, value, tail);
  }

  lemma SplitLine(line: string, pre: string, key: string, n: nat, value: string, tail: string)
    requires pre == key + (":" + Spaces(n)) && line == pre + (value + tail)
    requires line == key + ":" + Spaces(n) + (value + tail) && line == key + (":" + Spaces(n) + (value + tail))
    requires NoSeparator(key) && NoSeparator(value) && n > 0 && (value != "" ==> value[0] != ' ')
    requires tail == "" || (tail[0] == ':' && |tail| > 1 && tail[1] == ' ')
    ensures KeyValue(line) == (key, Some(value))
  {
    hide Spaces, Find, NoSeparator, SkipSpaces;
    Halves(pre, value + tail);
    KeyFound(line, key, n, value + tail);
    ValueFound(line, |pre|, value, tail);
    Parts(line, key, ":" + Spaces(n) + (value + tail), |pre|, value, tail);
  }

  lemma Parts(line: string, key: string, rest: string, v: nat, value: string, tail: string)
    requires line == key + rest && v <= |line| && line[v..] == value + tail
    ensures line[..|key|] == key && line[v..v + |value|] == value && (tail == "" ==> line[v..] == value)
  {
    Halves(key, rest);
    Halves(value, tail);
    assert line[v..v + |value|] == line[v..][..|value|];
  }

  lemma Regroup(a: string, b: string, c: string, d: string, e: string)
    ensures var all := a + b + c + d + e; all == (a + (b + c)) + (d + e) && all == a + b + c + (d + e) && all == a + (b + c + (d + e))
  {
  }

  lemma Halves(a: string, b: string)
    ensures (a + b)[..|a|] == a && (a + b)[|a|..] == b
  {
  }

  lemma KeyFound(line: string, key: string, n: nat, rest: string)
    requires line == key + ":" + Spaces(n) + rest && NoSeparator(key) && n > 0 && (rest != "" ==> rest[0] != ' ')
    ensures Find(line, ": ", 0) == Some(|key|) && SkipSpaces(line, |key| + 1) == |key| + 1 + n
  {
    hide Spaces;
    Apart(line, |key|);
    forall j | 0 <= j < |key| ensures !At(line, ": ", j) { Apart(line, j); }
    FindAt(line, ": ", 0, |key|);
    SpacesSkipped(line, |key| + 1, |key| + 1 + n);
  }

  lemma ValueFound(line: string, v: nat, value: string, tail: string)
    requires v <= |line| && line[v..] == value + tail && NoSeparator(value)
    requires tail == "" || (tail[0] == ':' && |tail| > 1 && tail[1] == ' ')
    ensures Find(line, ": ", v) == if tail == "" then None else Some(v + |value|)
  {
    var text := value + tail;
    assert forall j :: v <= j < |line| ==> line[j] == text[j - v];
    forall j | v <= j < v + |value| ensures !At(line, ": ", j) { Apart(line, j); }
    if tail == "" {
      forall j | v <= j <= |line| ensures !At(line, ": ", j) { Apart(line, j); }
      FindNowhere(line, ": ", v);
    } else {
      Apart(line, v + |value|);
      FindAt(line, ": ", v, v + |value|);
    }
  }

  // ----- a header

  type Field = (string, string)

  function Line(f: Field): string { f.0 + ": " + f.1 }

  function Lines(fields: seq<Field>): string {
    if fields == [] then "" else if |fields| == 1 then Line(fields[0]) else Line(fields[0]) + "\r\n" + Lines(fields[1..])
  }

  predicate Clean(f: Field) {
    NoSeparator(f.0) && NoSeparator(f.1) && (f.1 != "" ==> f.1[0] != ' ') && Without(f.0, '\r') && Without(f.1, '\r')
  }

  predicate AllClean(fields: seq<Field>) { forall k :: 0 <= k < |fields| ==> Clean(fields[k]) }

  /** The value of the last line with a key. */
  function LastValue(fields: seq<Field>, key: string): Option<string> {
    if fields == [] then None
    else if fields[|fields| - 1].0 == key then Some(fields[|fields| - 1].1)
    else LastValue(fields[..|fields| - 1], key)
  }

  lemma CleanLine(f: Field)
    requires Clean(f)
    ensures KeyValue(Line(f)) == (f.0, Some(f.1)) && Without(Line(f), '\r')
  {
    hide KeyValue, NoSeparator;
    LineRead(f.0, 1, f.1, "");
    assert Spaces(1) == " ";
    assert f.0 + ":" + Spaces(1) + f.1 + "" == Line(f);
  }

  lemma ParseLast(f: Field, headers: map<string, Option<string>>)
    requires Clean(f)
    ensures ParseHeaders(Line(f), headers) == AddHeader(headers, f.0, Some(f.1))
  {
    hide KeyValue;
    CleanLine(f);
    FindNone(Line(f), "\r\n", 0);
  }

  lemma ParseFirst(f: Field, rest: string, headers: map<string, Option<string>>)
    requires Clean(f)
    ensures ParseHeaders(Line(f) + "\r\n" + rest, headers) == ParseHeaders(rest, AddHeader(headers, f.0, Some(f.1)))
  {
    hide KeyValue;
    CleanLine(f);
    FindFirst(Line(f), "\r\n", rest, 0);
    var text := Line(f) + "\r\n" + rest;
    assert text[..|Line(f)|] == Line(f) && text[|Line(f)| + 2..] == rest;
  }

  /** What reading the lines one after the other leaves under a key. */
  ghost predicate ReadInto(fields: seq<Field>, before: map<string, Option<string>>, after: map<string, Option<string>>) {
    forall key :: var last := if key == "__proto__" then None else LastValue(fields, key);
      if last.Some? then key in after && after[key] == last else (key in after <==> key in before) && (key in after ==> after[key] == before[key])
  }

  lemma {:induction false} LastValueFirst(fields: seq<Field>, key: string)
    requires fields != []
    ensures LastValue(fields, key) == if LastValue(fields[1..], key).Some? then LastValue(fields[1..], key)
                                      else if fields[0].0 == key then Some(fields[0].1) else None
  {
    var n := |fields| - 1;
    if n > 0 {
      LastValueFirst(fields[..n], key);
      assert fields[1..][..n - 1] == fields[..n][1..];
    }
  }

  /** A header of several lines is read line by line: every key gets the value of its last line, whatever comes around it. */
  lemma {:induction false} HeadersRead(fields: seq<Field>, headers: map<string, Option<string>>)
    requires fields != [] && AllClean(fields)
    ensures ReadInto(fields, headers, ParseHeaders(Lines(fields), headers))
  {
    hide ParseHeaders, Clean, Line;
    var f := fields[0];
    assert Clean(f);
    var one := AddHeader(headers, f.0, Some(f.1));
    if |fields| == 1 {
      ParseLast(f, headers);
    } else {
      ParseFirst(f, Lines(fields[1..]), headers);
      HeadersRead(fields[1..], one);
    }
    forall key ensures LastValue(fields, key) == if LastValue(fields[1..], key).Some? then LastValue(fields[1..], key)
                                                 else if fields[0].0 == key then Some(fields[0].1) else None
    {
      LastValueFirst(fields, key);
    }
  }

  // ----- a length

  predicate Blank(text: string) { forall k :: 0 <= k < |text| ==> IsBlank(text[k]) }

  lemma {:induction false} TrimBlanks(before: string, s: string, after: string)
    requires Blank(before) && Blank(after) && s != "" && !IsBlank(s[0]) && !IsBlank(s[|s| - 1])
    ensures Trim(before + s + after) == s
    decreases |before| + |after|
  {
    var text := before + s + after;
    if before != "" {
      assert text[1..] == before[1..] + s + after;
      TrimBlanks(before[1..], s, after);
    } else if after != "" {
      assert text[0] == s[0] && text[|text| - 1] == after[|after| - 1];
      assert text[..|text| - 1] == before + s + after[..|after| - 1];
      TrimBlanks(before, s, after[..|after| - 1]);
    } else {
      assert text == s;
    }
  }

  /** A length is read from its digits, with or without a sign, and blanks around it do not matter. */
  lemma NumberRead(before: string, sign: string, n: nat, after: string)
    requires Blank(before) && Blank(after) && (sign == "" || sign == "+" || sign == "-")
    ensures Number(before + (sign + Decimal(n)) + after) == Some((if sign == "-" then -1 else 1) * n)
  {
    hide Digits, Decimal;
    var s := sign + Decimal(n);
    DigitsDecimal(n);
    assert IsDigit(s[|s| - 1]) && (sign == "" ==> s == Decimal(n)) && (sign != "" ==> s[1..] == Decimal(n));
    TrimBlanks(before, s, after);
  }

  // ----- messages

  /** A message of V8: its header and a body. */
  datatype Message = Message(fields: seq<Field>, body: string)

  function Wire(m: Message): string { Lines(m.fields) + END + m.body }

  /** A header that announces the length of its body. */
  predicate Good(m: Message) {
    && m.fields != [] && AllClean(m.fields)
    && var v := LastValue(m.fields, "Content-Length"); v.Some? && Number(v.value) == Some(|m.body|)
  }

  function Keys(fields: seq<Field>): set<string> { if fields == [] then {} else Keys(fields[..|fields| - 1]) + {fields[|fields| - 1].0} }

  /** Every key with the value of its last line. */
  function Headers(fields: seq<Field>): map<string, Option<string>> { map key | key in Keys(fields) && key != "__proto__" :: LastValue(fields, key) }

  function ResponseOf(m: Message): Response { Response(Headers(m.fields), m.body) }

  lemma {:induction false} KeysIs(fields: seq<Field>, key: string)
    ensures key in Keys(fields) <==> LastValue(fields, key).Some?
  {
    if fields != [] { KeysIs(fields[..|fields| - 1], key); }
  }

  lemma HeadersAre(fields: seq<Field>)
    requires fields != [] && AllClean(fields)
    ensures ParseHeaders(Lines(fields), map[]) == Headers(fields)
  {
    hide ParseHeaders, Lines, LastValue, Keys;
    HeadersRead(fields, map[]);
    forall key ensures key in Keys(fields) <==> LastValue(fields, key).Some? { KeysIs(fields, key); }
  }

  /** The end of a header is where the empty line is: no line holds a carriage return, and none is empty. */
  lemma {:induction false} HeaderEnd(fields: seq<Field>, rest: string)
    requires fields != [] && AllClean(fields)
    ensures Find(Lines(fields) + END + rest, END, 0) == Some(|Lines(fields)|)
  {
    hide Clean, Find, Line, KeyValue;
    var f := fields[0];
    assert Clean(f);
    CleanLine(f);
    if |fields| == 1 {
      FindFirst(Line(f), END, rest, 0);
    } else {
      var more := Lines(fields[1..]) + END + rest;
      assert Lines(fields) + END + rest == Line(f) + "\r\n" + more;
      HeaderEnd(fields[1..], rest);
      LineStart(fields[1..], more);
      FindBeyond(Line(f) + "\r\n", Line(f), more);
    }
  }

  lemma LineStart(fields: seq<Field>, text: string)
    requires fields != [] && AllClean(fields) && Lines(fields) <= text
    ensures |text| >= 2 && text[0] != '\r'
  {
    var f := fields[0];
    assert Clean(f);
    assert Line(f) <= Lines(fields);
    if f.0 != "" { assert text[0] == f.0[0]; } else { assert text[0] == Line(f)[0] == ':'; }
  }

  lemma FindBeyond(pre: string, line: string, more: string)
    requires pre == line + "\r\n" && Without(line, '\r') && |more| >= 2 && more[0] != '\r' && Find(more, END, 0).Some?
    ensures Find(pre + more, END, 0) == Some(|pre| + Find(more, END, 0).value)
  {
    hide Find, At, Without;
    NoneYet(pre, line, more);
    AllBeyond(pre, more);
    FoundFirst(more, END, 0);
    Shifted(pre + more, |pre|, more, Find(more, END, 0).value);
  }

  lemma NoneYet(pre: string, line: string, more: string)
    requires pre == line + "\r\n" && Without(line, '\r') && |more| >= 2 && more[0] != '\r'
    ensures forall j :: 0 <= j < |pre| ==> !At(pre + more, END, j)
  {
    hide At, Without;
    forall j | 0 <= j < |pre| ensures !At(pre + more, END, j) { NotYet(line, more, j); }
  }

  lemma AllBeyond(pre: string, more: string)
    ensures forall i: nat :: At(pre + more, END, |pre| + i) <==> At(more, END, i)
  {
    hide At;
    forall i: nat ensures At(pre + more, END, |pre| + i) <==> At(more, END, i) { BeyondAt(pre, more, i); }
  }

  lemma Shifted(text: string, n: nat, more: string, k: nat)
    requires (forall j :: 0 <= j < n ==> !At(text, END, j)) && forall i: nat :: At(text, END, n + i) <==> At(more, END, i)
    requires At(more, END, k) && forall i :: 0 <= i < k ==> !At(more, END, i)
    ensures Find(text, END, 0) == Some(n + k)
  {
    hide Find, At;
    forall j | 0 <= j < n + k ensures !At(text, END, j) {
      if j >= n { assert !At(more, END, j - n) && At(text, END, n + (j - n)) == At(more, END, j - n); }
    }
    FindAt(text, END, 0, n + k);
  }

  lemma NotYet(line: string, more: string, j: nat)
    requires Without(line, '\r') && |more| >= 2 && more[0] != '\r' && j < |line| + 2
    ensures !At(line + "\r\n" + more, END, j)
  {
    hide At;
    var text := line + "\r\n" + more;
    EndAt(text, j);
    if j < |line| {
      assert text[j] == line[j];
    } else if j == |line| {
      assert text[j + 2] == more[0];
    } else {
      assert text[j] == '\n';
    }
  }

  lemma EndAt(text: string, j: nat)
    ensures At(text, END, j) ==> j + 4 <= |text| && text[j] == text[j + 2] == '\r'
  {
    if j + 4 <= |text| { assert text[j..j + 4] == [text[j], text[j + 1], text[j + 2], text[j + 3]]; }
  }

  lemma BeyondAt(pre: string, more: string, i: nat)
    ensures At(pre + more, END, |pre| + i) <==> At(more, END, i)
  {
    if i + 4 <= |more| { assert (pre + more)[|pre| + i..|pre| + i + 4] == more[i..i + 4]; }
  }

  lemma {:induction false} FoundFirst(text: string, what: string, from: nat)
    requires Find(text, what, from).Some?
    ensures var k := Find(text, what, from).value;
            At(text, what, k) && forall j :: from <= j < k ==> !At(text, what, j)
    decreases |text| - from
  {
    if text[from..from + |what|] != what { FoundFirst(text, what, from + 1); }
  }

  // ----- runs of messages

  function Wires(ms: seq<Message>): string { if ms == [] then "" else Wire(ms[0]) + Wires(ms[1..]) }

  function ResponsesOf(ms: seq<Message>): (r: seq<Response>)
    ensures |r| == |ms|
  {
    seq(|ms|, k requires 0 <= k < |ms| => ResponseOf(ms[k]))
  }

  /** The parser when it has cut off one message. */
  function AfterMessage(s: State, m: Message, rest: string): State {
    s.(raw := rest, contentLength := Some(|m.body|), bodyStart := |Lines(m.fields)| + 4, reqSeq := 1, responses := s.responses + [ResponseOf(m)])
  }

  lemma ReadMessage(s: State, m: Message, rest: string)
    requires Between(s) && Good(m) && s.raw == Wire(m) + rest
    ensures Read(s) == s.(headers := Headers(m.fields), contentLength := Some(|m.body|), bodyStart := |Lines(m.fields)| + 4, inBody := true)
  {
    hide ParseHeaders, Find, Number, Lines, Keys;
    var lines := Lines(m.fields);
    assert s.raw == lines + END + (m.body + rest);
    HeaderEnd(m.fields, m.body + rest);
    assert s.raw[..|lines|] == lines;
    HeadersAre(m.fields);
    KeysIs(m.fields, "Content-Length");
  }

  lemma CutMessage(s: State, r: State, m: Message, rest: string)
    requires s.raw == r.raw == Wire(m) + rest && Between(s)
    requires r == s.(headers := Headers(m.fields), contentLength := Some(|m.body|), bodyStart := |Lines(m.fields)| + 4, inBody := true)
    ensures BodyReady(r) && |Rest(r)| < |r.raw| && NextResponse(r) == AfterMessage(s, m, rest)
  {
    hide Lines, Headers;
    var k := |Lines(m.fields)| + 4;
    assert s.raw[k..k + |m.body|] == m.body && s.raw[k + |m.body|..] == rest;
    assert BodyEnd(r) == k + |m.body| && Rest(r) == rest && Slice(s.raw, k, k + |m.body|) == m.body;
  }

  lemma PumpMessage(s: State, m: Message, rest: string)
    requires Between(s) && Good(m) && s.raw == Wire(m) + rest
    ensures Pump(s) == Pump(AfterMessage(s, m, rest))
    ensures Forward(s) == Forward(AfterMessage(s, m, rest))
  {
    hide ParseHeaders, Find, Number, Slice, Clamp, ContentLength, Lines, Headers, LastValue, Wire;
    ReadMessage(s, m, rest);
    var r := Read(s);
    assert Pump(s) == Pump(r) && Forward(s) == Forward(r);
    CutMessage(s, r, m, rest);
    LengthEndsInside(r);
  }

  lemma PumpNothing(s: State)
    requires Between(s) && s.raw == ""
    ensures Pump(s) == Some(s) && Forward(s)
  {
  }

  predicate AllGood(ms: seq<Message>) { forall k :: 0 <= k < |ms| ==> Good(ms[k]) }

  /** A run of messages gives exactly their headers and bodies, in order, and leaves no text over. */
  lemma {:induction false} MessagesDecode(s: State, ms: seq<Message>)
    requires Between(s) && AllGood(ms) && s.raw == Wires(ms)
    ensures Pump(s).Some? && Pump(s).value.responses == s.responses + ResponsesOf(ms) && Pump(s).value.raw == ""
    ensures Forward(s)
    decreases |ms|
  {
    hide Wire, ResponseOf, Pump, Forward, Good;
    if ms == [] {
      PumpNothing(s);
    } else {
      var rest := Wires(ms[1..]);
      assert Good(ms[0]);
      PumpMessage(s, ms[0], rest);
      MessagesDecode(AfterMessage(s, ms[0], rest), ms[1..]);
      assert ResponsesOf(ms) == [ResponseOf(ms[0])] + ResponsesOf(ms[1..]);
    }
  }

  /** Messages that arrive in any pieces give exactly their headers and bodies. */
  lemma PiecesDecode(ms: seq<Message>, pieces: seq<string>)
    requires pieces != [] && AllGood(ms) && Join(pieces) == Wires(ms)
    ensures var t := ExecuteAll(Initial(), pieces); t.Some? && t.value.responses == ResponsesOf(ms) && t.value.raw == ""
  {
    hide Pump, ResponseOf, Forward, AllGood;
    var s := Initial().(raw := "" + Join(pieces));
    assert "" + Join(pieces) == Join(pieces);
    MessagesDecode(s, ms);
    PiecesInvariant(Initial(), pieces);
  }

  /** What `serialize` makes of a text is such a message. */
  function Serialized(body: string): Message { Message([("Content-Length", Numeral(|body|))], body) }

  lemma SerializedClean(n: nat)
    ensures var f := ("Content-Length", Numeral(n)); Clean(f) && Lines([f]) == "Content-Length: " + Numeral(n)
  {
    hide Numeral;
    NumeralClean(n);
  }

  lemma OneField(f: Field)
    ensures LastValue([f], f.0) == Some(f.1)
  {
  }

  /** It is a good one, with that one header. */
  lemma SerializedGood(body: string)
    ensures Wire(Serialized(body)) == Header(|body|) + body && Good(Serialized(body))
    ensures ResponseOf(Serialized(body)) == Response(map["Content-Length" := Some(Numeral(|body|))], body)
  {
    hide Numeral, Number, Clean, Headers, Lines, LastValue, ParseHeaders;
    SerializedClean(|body|);
    OneField(("Content-Length", Numeral(|body|)));
    NumberNumeral(|body|);
    HeaderRead(|body|);
    HeadersAre([("Content-Length", Numeral(|body|))]);
  }
}

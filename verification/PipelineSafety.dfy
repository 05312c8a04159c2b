/** What every step on a connection keeps. */
module PipelineSafety {
  import opened Sequences
  import opened Wrappers
  import opened PipelineSteps

  // ----- what a response amounts to on the wire

  function Encode(plan: Plan, part: Part): Bytes {
    match part
    case Chunk(data) => if plan.chunked then Hex(|data|) + CRLF + data + CRLF else data
    case Terminator => if plan.chunked then "0\r\n" + plan.trailer + CRLF else ""
  }

  function Body(plan: Plan, parts: seq<Part>): Bytes {
    if parts == [] then "" else Body(plan, parts[..|parts| - 1]) + Encode(plan, parts[|parts| - 1])
  }

  /** The bytes of a response: its header and what the handler asked for, or nothing if it asked for nothing. */
  function Message(r: Response): Bytes { if r.parts == [] then "" else r.plan.header + Body(r.plan, r.parts) }

  function Messages(rs: seq<Response>): Bytes {
    if rs == [] then "" else Messages(rs[..|rs| - 1]) + Message(rs[|rs| - 1])
  }

  // ----- the invariant

  predicate Pieces(output: seq<Bytes>) { forall k :: 0 <= k < |output| ==> output[k] != "" }

  ghost predicate Well(r: Response) {
    && r.plan.header != ""
    && (r.headerSent <==> r.parts != [])
    && (r.headerSent ==> r.headerSet)
    && (r.finished ==> r.headerSent)
    && (!r.headerSent ==> r.output == [])
    && Pieces(r.output)
    && (!r.attached && !r.served ==> Concat(r.output) == Message(r))
    && (r.served ==> r.finished && !r.attached)
  }

  /** The connection while no response has closed it: responses are served in order, the first unserved one has the socket. */
  ghost predicate Serving(s: State)
    requires s.done <= |s.responses|
  {
    var n := |s.responses|;
    && s.httpMessage == (if s.done < n then Some(s.done) else None)
    && |s.outgoing| == (if s.done < n then n - s.done - 1 else 0)
    && (forall j :: 0 <= j < |s.outgoing| ==> s.outgoing[j] == s.done + 1 + j)
    && ((s.inputEnded && s.incoming == []) || (|s.incoming| == n - s.done && forall j :: 0 <= j < |s.incoming| ==> s.incoming[j] == s.done + j))
    && s.wire + (if s.done < n then Concat(s.responses[s.done].output) else "") ==
       Messages(s.responses[..s.done]) + (if s.done < n then Message(s.responses[s.done]) else "")
  }

  /** The connection after its last response: nothing more is sent. */
  ghost predicate Closed(s: State)
    requires s.done <= |s.responses|
  {
    && !s.writable
    && s.wire == Messages(s.responses[..s.done])
    && (s.httpMessage.Some? ==> var i := s.httpMessage.value; i < |s.responses| && (s.responses[i].headerSent ==> s.responses[i].output != []))
    && (forall j :: 0 <= j < |s.outgoing| ==> s.outgoing[j] < |s.responses|)
  }

  ghost predicate Core(s: State) {
    && s.done <= |s.responses|
    && (forall i :: 0 <= i < |s.responses| ==> Well(s.responses[i]) && (s.responses[i].served <==> i < s.done))
    && (forall i :: 0 <= i < |s.responses| ==> (s.responses[i].attached <==> s.httpMessage == Some(i)))
    && (forall k :: 0 <= k < |s.flushes| ==> s.flushes[k] < |s.responses|)
    && !s.broken
    && if s.closed then Closed(s) else Serving(s)
  }

  /** A response that has the socket and something left to do is going to be flushed. */
  ghost predicate FlushDue(s: State) {
    !s.closed && s.writable && s.done < |s.responses| && (s.responses[s.done].output != [] || s.responses[s.done].finished) ==> s.done in s.flushes
  }

  ghost predicate Inv(s: State) { Core(s) && FlushDue(s) }

  // ----- lists

  /** Only the parts and the plans of the responses matter to what they amount to. */
  lemma {:induction false} MessagesSame(a: seq<Response>, b: seq<Response>)
    requires |a| == |b| && forall i :: 0 <= i < |a| ==> Message(a[i]) == Message(b[i])
    ensures Messages(a) == Messages(b)
  {
    hide Message;
    if a != [] { MessagesSame(a[..|a| - 1], b[..|b| - 1]); }
  }

  lemma {:induction false} MessagesPrefix(rs: seq<Response>, k: nat)
    requires k <= |rs|
    ensures Messages(rs[..k]) <= Messages(rs)
    decreases |rs| - k
  {
    hide Message;
    if k == |rs| {
      assert rs[..k] == rs;
    } else {
      MessagesNext(rs, k);
      MessagesPrefix(rs, k + 1);
    }
  }

  lemma MessagesNext(rs: seq<Response>, k: nat)
    requires k < |rs|
    ensures Messages(rs[..k + 1]) == Messages(rs[..k]) + Message(rs[k])
  {
    hide Message;
    assert rs[..k + 1][..k] == rs[..k];
  }

  // ----- sending

  predicate Owns(s: State, i: nat)
    requires i < |s.responses|
  {
    s.responses[i].attached && s.httpMessage == Some(i) && s.writable
  }

  /** Response `i` has taken `extra` more: on the wire if it has the socket, in its output if not. */
  ghost predicate Grew(s: State, t: State, i: nat, extra: Bytes) {
    && i < |s.responses| == |t.responses|
    && var r, q := s.responses[i], t.responses[i];
       && t == s.(responses := s.responses[i := q], wire := t.wire)
       && q == r.(headerSent := true, output := q.output)
       && t.wire + Concat(q.output) == s.wire + Concat(r.output) + extra
       && Pieces(q.output)
       && (if Owns(s, i) then r.output == [] ==> q.output == []
           else t.wire == s.wire && (r.output != [] || extra != "" ==> q.output != []))
  }

  lemma GrewTwice(s: State, t: State, u: State, i: nat, x: Bytes, y: Bytes)
    requires Grew(s, t, i, x) && Grew(t, u, i, y)
    ensures Grew(s, u, i, x + y)
  {
    hide Concat, Pieces;
    var q := u.responses[i];
    assert s.responses[i := t.responses[i]][i := q] == s.responses[i := q];
    var c := s.wire + Concat(s.responses[i].output);
    assert (c + x) + y == c + (x + y);
  }

  lemma RawGrows(s: State, i: nat, data: Bytes)
    requires i < |s.responses| && s.responses[i].headerSent && Pieces(s.responses[i].output)
    ensures var t := WriteRaw(s, i, data);
            Grew(s, t, i, data) && (Owns(s, i) && data != "" ==> t.responses[i].output == [])
  {
    hide Concat;
    var r := s.responses[i];
    ConcatNone<char>();
    ConcatOne(data);
    ConcatAdds(r.output, [data]);
    var before := s.wire + Concat(r.output);
    if data == "" {
      assert s.responses[i := r] == s.responses;
      assert before + data == before;
    } else if Owns(s, i) {
      assert (before + data) + "" == before + data;
    } else {
      assert s.wire + (Concat(r.output) + data) == before + data;
    }
  }

  lemma SendGrows(s: State, i: nat, data: Bytes, text: bool)
    requires i < |s.responses| && (text || data != "") && s.responses[i].plan.header != ""
    requires Pieces(s.responses[i].output) && (!s.responses[i].headerSent ==> s.responses[i].output == [])
    ensures Grew(s, Send(s, i, data, text), i, if s.responses[i].headerSent then data else s.responses[i].plan.header + data)
  {
    hide Concat, WriteRaw;
    var r := s.responses[i];
    var h := r.plan.header;
    if r.headerSent {
      RawGrows(s, i, data);
    } else if text {
      var first := Put(s, i, r.(headerSent := true));
      RawGrows(first, i, h + data);
      PutTwice(s, i, first.responses[i], Send(s, i, data, text).responses[i]);
    } else {
      var first := Put(s, i, r.(headerSent := true, output := [h]));
      assert [h] + r.output == [h];
      ConcatOne(h);
      ConcatNone<char>();
      RawGrows(first, i, data);
      PutTwice(s, i, first.responses[i], Send(s, i, data, text).responses[i]);
      assert s.wire + "" == s.wire && (s.wire + h) + data == s.wire + (h + data);
    }
  }

  lemma PutTwice(s: State, i: nat, r: Response, q: Response)
    requires i < |s.responses|
    ensures s.responses[i := r][i := q] == s.responses[i := q]
  {
  }

  lemma ChunkGrows(s: State, i: nat, data: Bytes, text: bool)
    requires i < |s.responses| && data != "" && s.responses[i].plan.header != ""
    requires Pieces(s.responses[i].output) && (!s.responses[i].headerSent ==> s.responses[i].output == [])
    ensures var r := s.responses[i];
            Grew(s, SendChunk(s, i, data, text), i, (if r.headerSent then "" else r.plan.header) + Encode(r.plan, Chunk(data)))
  {
    hide Concat, Send, Hex, Pieces;
    var r := s.responses[i];
    var h := if r.headerSent then "" else r.plan.header;
    var len := Hex(|data|);
    HexNonEmpty(|data|);
    assert forall d: Bytes :: "" + d == d;
    if !r.plan.chunked {
      SendGrows(s, i, data, text);
    } else if text {
      SendGrows(s, i, len + CRLF + data + CRLF, true);
    } else {
      SendGrows(s, i, len, true);
      var a := Send(s, i, len, true);
      SendGrows(a, i, CRLF, false);
      var b := Send(a, i, CRLF, false);
      GrewTwice(s, a, b, i, h + len, CRLF);
      SendGrows(b, i, data, false);
      var c := Send(b, i, data, false);
      GrewTwice(s, b, c, i, h + len + CRLF, data);
      SendGrows(c, i, CRLF, false);
      GrewTwice(s, c, Send(c, i, CRLF, false), i, h + len + CRLF + data, CRLF);
      assert h + len + CRLF + data + CRLF == h + (len + CRLF + data + CRLF);
    }
  }

  lemma HexNonEmpty(n: nat)
    ensures Hex(n) != ""
  {
  }
}

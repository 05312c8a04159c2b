/** Every step on a connection keeps the invariant. */
module PipelineRuns {
  import opened Sequences
  import opened Wrappers
  import opened PipelineSteps
  import opened PipelineSafety

  /** A response changed in a way that does not matter to the wire. */
  lemma SameMessages(s: State, i: nat, q: Response, k: nat)
    requires i < |s.responses| && k <= |s.responses| && (i < k ==> Message(q) == Message(s.responses[i]))
    ensures Messages(s.responses[i := q][..k]) == Messages(s.responses[..k])
  {
    hide Message;
    MessagesSame(s.responses[i := q][..k], s.responses[..k]);
  }

  /** Changes to one response that leave alone what it has sent, what it has to send, and who has the socket. */
  lemma ChangeCore(s: State, i: nat, q: Response)
    requires Core(s) && i < |s.responses|
    requires var r := s.responses[i];
             q == r.(headerSet := q.headerSet, finished := q.finished, last := q.last) && Well(q)
    ensures Core(Put(s, i, q))
  {
    hide Messages, Concat, Message, Pieces, Well;
    assert Message(q) == Message(s.responses[i]) by { MessageIs(s.responses[i], q); }
    SameMessages(s, i, q, s.done);
  }

  lemma MessageIs(r: Response, q: Response)
    requires q.plan == r.plan && q.parts == r.parts
    ensures Message(q) == Message(r)
  {
  }

  lemma WriteHeadInv(s: State, i: nat)
    requires i < |s.responses|
    ensures Core(s) ==> Core(WriteHead(s, i))
    ensures Inv(s) ==> Inv(WriteHead(s, i))
  {
    hide Core;
    if Core(s) {
      WellAt(s, i);
      var r := s.responses[i];
      if !r.headerSet { ChangeCore(s, i, r.(headerSet := true, last := r.last || r.plan.last)); }
    }
  }

  lemma WellAt(s: State, i: nat)
    requires Core(s) && i < |s.responses|
    ensures Well(s.responses[i])
  {
    hide Well;
  }

  // ----- sending a part

  /** What a part adds to a response. */
  function Extra(r: Response, part: Part): Bytes { (if r.headerSent then "" else r.plan.header) + Encode(r.plan, part) }

  lemma NotedMessage(r: Response, part: Part)
    requires r.headerSent <==> r.parts != []
    ensures Message(r.(parts := r.parts + [part])) == Message(r) + Extra(r, part)
  {
    hide Encode;
    assert (r.parts + [part])[..|r.parts|] == r.parts;
    var e := Encode(r.plan, part);
    if r.parts == [] {
      assert Body(r.plan, []) == "";
      assert r.plan.header + ("" + e) == "" + (r.plan.header + e);
    } else {
      assert (r.plan.header + Body(r.plan, r.parts)) + e == r.plan.header + (Body(r.plan, r.parts) + e);
      assert "" + e == e;
    }
  }

  /** The response after its part has gone out or been kept. */
  lemma GrownWell(s: State, t: State, i: nat, part: Part)
    requires Core(s) && i < |s.responses| && s.responses[i].headerSet && !s.responses[i].served
    requires Grew(Note(s, i, part), t, i, Extra(s.responses[i], part))
    ensures Well(t.responses[i]) && Message(t.responses[i]) == Message(s.responses[i]) + Extra(s.responses[i], part)
    ensures t.wire + Concat(t.responses[i].output) == s.wire + Concat(s.responses[i].output) + Extra(s.responses[i], part)
  {
    hide Messages, Concat, Message, Pieces, Extra;
    var r := s.responses[i];
    WellAt(s, i);
    NotedMessage(r, part);
    MessageIs(r.(parts := r.parts + [part]), t.responses[i]);
    if !r.attached {
      assert t.wire == s.wire;
      SameTail(s.wire, Concat(t.responses[i].output), Concat(r.output), Extra(r, part));
    }
  }

  lemma SameTail(w: Bytes, a: Bytes, c: Bytes, d: Bytes)
    requires w + a == w + c + d
    ensures a == c + d
  {
    assert (w + a)[|w|..] == a && (w + c + d)[|w|..] == c + d;
  }

  /** A response that is over only fills its own output. */
  lemma ServedCore(s: State, t: State, i: nat, extra: Bytes)
    requires Core(s) && i < |s.responses| && s.responses[i].served && Grew(s, t, i, extra)
    ensures Core(t)
  {
    hide Messages, Concat, Message, Pieces;
    WellAt(s, i);
    MessageIs(s.responses[i], t.responses[i]);
    SameMessages(s, i, t.responses[i], s.done);
  }

  lemma UnservedServing(s: State, t: State, i: nat, part: Part)
    requires Core(s) && !s.closed && i < |s.responses| && s.responses[i].headerSet && !s.responses[i].served
    requires Grew(Note(s, i, part), t, i, Extra(s.responses[i], part))
    ensures Serving(t)
  {
    hide Messages, Concat, Message, Pieces, Extra, Well;
    GrownWell(s, t, i, part);
    var q := t.responses[i];
    assert t.responses == s.responses[i := q];
    SameMessages(s, i, q, s.done);
    if i == s.done {
      var w, m, c, d, e := s.wire, Messages(s.responses[..s.done]), Concat(s.responses[i].output), Message(s.responses[i]), Extra(s.responses[i], part);
      assert t.wire + Concat(q.output) == (w + c) + e;
      assert (m + d) + e == m + (d + e);
    }
  }

  lemma UnservedClosed(s: State, t: State, i: nat, part: Part)
    requires Core(s) && s.closed && i < |s.responses| && s.responses[i].headerSet && !s.responses[i].served
    requires Grew(Note(s, i, part), t, i, Extra(s.responses[i], part))
    ensures Closed(t)
  {
    hide Messages, Concat, Message, Pieces;
    GrownWell(s, t, i, part);
    var q := t.responses[i];
    assert t.responses == s.responses[i := q];
    SameMessages(s, i, q, s.done);
  }

  /** Taking one more part, on the wire or in the output, keeps everything. */
  lemma PartCore(s: State, t: State, i: nat, part: Part)
    requires Core(s) && i < |s.responses| && s.responses[i].headerSet
    requires Grew(Note(s, i, part), t, i, Extra(s.responses[i], part))
    ensures Core(t)
    ensures FlushDue(s) ==> FlushDue(t)
  {
    hide Messages, Concat, Message, Pieces, Serving, Closed, Extra;
    if s.responses[i].served {
      ServedCore(s, t, i, Extra(s.responses[i], part));
    } else {
      GrownWell(s, t, i, part);
      if s.closed { UnservedClosed(s, t, i, part); } else { UnservedServing(s, t, i, part); }
      assert t.responses == s.responses[i := t.responses[i]];
      ServingOwner(s);
    }
  }

  lemma ServingOwner(s: State)
    requires Core(s)
    ensures !s.closed ==> s.httpMessage == (if s.done < |s.responses| then Some(s.done) else None)
    ensures forall i :: 0 <= i < |s.responses| ==> (s.responses[i].attached <==> s.httpMessage == Some(i))
  {
    hide Messages, Concat, Message, Pieces;
  }

  lemma WriteInv(s: State, i: nat, data: Bytes, text: bool)
    requires Core(s) && i < |s.responses|
    ensures Core(Write(s, i, data, text)) && Write(s, i, data, text).responses[i].headerSet
    ensures Write(s, i, data, text).responses[i].served == s.responses[i].served
    ensures FlushDue(s) ==> FlushDue(Write(s, i, data, text))
  {
    hide Core, SendChunk, FlushDue, Encode;
    WriteHeadInv(s, i);
    var t := WriteHead(s, i);
    HeadFlush(s, i);
    HeadSet(s, i);
    if t.responses[i].plan.hasBody && data != "" {
      WellAt(t, i);
      ChunkGrows(Note(t, i, Chunk(data)), i, data, text);
      PartCore(t, Write(s, i, data, text), i, Chunk(data));
    }
  }

  lemma HeadFlush(s: State, i: nat)
    requires i < |s.responses|
    ensures FlushDue(s) ==> FlushDue(WriteHead(s, i))
  {
  }

  // ----- handing the socket on

  /** What holds once the response that has the socket has sent everything. */
  ghost predicate Complete(s: State, i: nat) {
    Core(s) && !s.closed && i < |s.responses| && s.httpMessage == Some(i) && s.responses[i].finished && s.responses[i].output == []
  }

  /** The response is taken off: both assertions hold, and the wire carries it in full. */
  lemma DetachServes(s: State, i: nat)
    requires Complete(s, i)
    ensures i == s.done && (s.incoming == [] || s.incoming[0] == i)
    ensures var u := DetachSocket(s, i);
            u.wire == Messages(u.responses[..u.done]) && Well(u.responses[i]) && u.responses[..u.done][..s.done] == u.responses[..s.done]
  {
    hide Messages, Message, Pieces;
    ConcatNone<char>();
    var r := s.responses[i];
    WellAt(s, i);
    var q := r.(attached := false, served := true);
    MessageIs(r, q);
    SameMessages(s, i, q, s.done);
    MessagesNext(s.responses[i := q], s.done);
    assert s.wire + "" == s.wire;
  }

  lemma FinishLast(s: State, i: nat)
    requires Complete(s, i) && s.responses[i].last
    ensures Inv(Finish(s, i))
  {
    hide Messages, Message, Pieces, Concat, Well, Serving;
    DetachServes(s, i);
    ServingLists(s);
  }

  lemma ServingLists(s: State)
    requires Core(s) && !s.closed
    ensures forall j :: 0 <= j < |s.outgoing| ==> s.outgoing[j] < |s.responses|
  {
    hide Messages, Message, Pieces, Concat, Well;
  }

  /** Nothing else is waiting: the socket is free. */
  lemma FinishFree(s: State, i: nat)
    requires Complete(s, i) && !s.responses[i].last && s.outgoing == []
    ensures Inv(Finish(s, i))
  {
    hide Messages, Message, Pieces, Concat, Well;
    DetachServes(s, i);
    var u := Finish(s, i);
    assert u.responses[..u.done] == u.responses;
    assert u.wire + "" == u.wire && Messages(u.responses) + "" == Messages(u.responses);
  }

  /** The next response in request order gets the socket. */
  lemma FinishNext(s: State, i: nat)
    requires Complete(s, i) && !s.responses[i].last && s.outgoing != []
    ensures Inv(Finish(s, i))
  {
    hide Messages, Message, Pieces, Concat;
    DetachServes(s, i);
    var n := s.done + 1;
    assert s.outgoing[0] == n;
    WellAt(s, n);
    var before := DetachSocket(s, i);
    var r := s.responses[n];
    assert before.responses[n] == r;
    MessageIs(r, r.(attached := true));
    SameMessages(before, n, r.(attached := true), n);
  }

  lemma FinishInv(s: State, i: nat)
    requires Complete(s, i)
    ensures Inv(Finish(s, i))
  {
    hide Core, Finish;
    if s.responses[i].last {
      FinishLast(s, i);
    } else if s.outgoing == [] {
      FinishFree(s, i);
    } else {
      FinishNext(s, i);
    }
  }

  // ----- the end of a response

  /** A response whose header has gone somewhere and whose output is empty has the socket, and the connection is not closed. */
  lemma EmptyHasSocket(s: State, i: nat)
    requires Core(s) && i < |s.responses| && s.responses[i].headerSent && s.responses[i].output == [] && !s.responses[i].served
    ensures s.responses[i].attached && s.httpMessage == Some(i) && !s.closed
  {
    hide Messages, Pieces, Body;
    ConcatNone<char>();
    WellAt(s, i);
  }

  function Terminated(s: State, i: nat): (t: State)
    requires i < |s.responses|
    ensures |t.responses| == |s.responses|
  {
    var p := s.responses[i].plan;
    Send(Note(s, i, Terminator), i, if p.chunked then "0\r\n" + p.trailer + CRLF else "", true)
  }

  /** The terminator goes out, or is kept. */
  lemma TerminatedCore(s: State, i: nat)
    requires Core(s) && FlushDue(s) && i < |s.responses| && s.responses[i].headerSet && !s.responses[i].served
    ensures var v := Terminated(s, i);
            Core(v) && FlushDue(v) && |v.responses| == |s.responses| && v.responses[i].headerSent && !v.responses[i].served
  {
    hide Core, FlushDue, Send, Pieces;
    WellAt(s, i);
    TerminatorGrows(Note(s, i, Terminator), s.responses[i], i);
    PartCore(s, Terminated(s, i), i, Terminator);
  }

  lemma TerminatorGrows(s: State, r: Response, i: nat)
    requires i < |s.responses| && s.responses[i] == r.(parts := r.parts + [Terminator]) && Well(r)
    ensures Grew(s, Send(s, i, if r.plan.chunked then "0\r\n" + r.plan.trailer + CRLF else "", true), i, Extra(r, Terminator))
  {
    hide Send, Pieces, Grew, Concat, Message;
    var end := if r.plan.chunked then "0\r\n" + r.plan.trailer + CRLF else "";
    SendGrows(s, i, end, true);
    assert "" + end == end;
  }

  lemma MarkFinished(s: State, i: nat)
    requires Core(s) && FlushDue(s) && i < |s.responses| && s.responses[i].headerSent
    ensures var w := Put(s, i, s.responses[i].(finished := true));
            Core(w) && (w.responses[i].output != [] ==> FlushDue(w))
  {
    hide Core, FlushDue;
    WellAt(s, i);
    FinishedWell(s.responses[i]);
    ChangeCore(s, i, s.responses[i].(finished := true));
    if s.responses[i].output != [] { FinishedFlush(s, i); }
  }

  /** `end` before the terminator. */
  function Written(s: State, i: nat, data: Bytes, text: bool): (t: State)
    requires i < |s.responses|
    ensures |t.responses| == |s.responses|
  {
    var t := WriteHead(s, i);
    if data != "" && t.responses[i].plan.hasBody then Write(t, i, data, text) else t
  }

  lemma WrittenCore(s: State, i: nat, data: Bytes, text: bool)
    requires Inv(s) && i < |s.responses| && !s.responses[i].finished
    ensures var u := Written(s, i, data, text);
            Inv(u) && |u.responses| == |s.responses| && u.responses[i].headerSet && !u.responses[i].served
  {
    hide Core, Write, FlushDue, WriteHead;
    WriteHeadInv(s, i);
    HeadFlush(s, i);
    HeadSet(s, i);
    NotServed(s, i);
    var t := WriteHead(s, i);
    if data != "" && t.responses[i].plan.hasBody { WriteInv(t, i, data, text); }
  }

  /** After that a response with output waits for a flush, and one without has the socket and can give it back. */
  lemma EndedCore(s: State, i: nat, data: Bytes, text: bool)
    requires Inv(s) && i < |s.responses| && !s.responses[i].finished
    ensures var w := Ended(s, i, data, text);
            if w.responses[i].output == [] then Complete(w, i) && w.responses[i].attached else Inv(w)
  {
    hide Core, FlushDue, Written, Terminated;
    var u := Written(s, i, data, text);
    WrittenCore(s, i, data, text);
    var v := Terminated(u, i);
    TerminatedCore(u, i);
    var w := Put(v, i, v.responses[i].(finished := true));
    MarkFinished(v, i);
    if w.responses[i].output == [] { EmptyHasSocket(w, i); }
  }

  lemma EndInv(s: State, i: nat, data: Bytes, text: bool)
    requires Inv(s) && i < |s.responses|
    ensures Inv(End(s, i, data, text))
  {
    hide Core, FlushDue, Finish, Ended, End;
    if s.responses[i].finished {
      EndAgain(s, i, data, text);
    } else {
      var w := Ended(s, i, data, text);
      EndedCore(s, i, data, text);
      EndIs(s, i, data, text);
      if w.responses[i].output == [] { FinishInv(w, i); }
    }
  }

  // ----- the other steps

  lemma RemoveFlush(s: State, k: nat)
    requires Core(s) && k < |s.flushes|
    ensures Core(s.(flushes := s.flushes[..k] + s.flushes[k + 1..]))
  {
    hide Concat, Message, Messages, Pieces, Well;
  }

  /** The response with the socket sends what it has kept. */
  lemma FlushSends(s: State, i: nat)
    requires Core(s) && i < |s.responses| && s.responses[i].attached && s.writable
    ensures var u := Put(s, i, s.responses[i].(output := [])).(wire := s.wire + Concat(s.responses[i].output));
            Core(u) && !u.closed && u.httpMessage == Some(i) && i == u.done
  {
    hide Message, Messages, Concat;
    WellAt(s, i);
    ConcatNone<char>();
    var r := s.responses[i];
    var q := r.(output := []);
    MessageIs(r, q);
    SameMessages(s, i, q, s.done);
    assert (s.wire + Concat(r.output)) + "" == s.wire + Concat(r.output);
  }

  lemma FlushInv(s: State, k: nat)
    requires Inv(s) && k < |s.flushes|
    ensures Inv(Flush(s, k))
  {
    hide Core, Finish, Concat;
    var i := s.flushes[k];
    var t := s.(flushes := s.flushes[..k] + s.flushes[k + 1..]);
    RemoveFlush(s, k);
    if i >= |s.responses| || !s.responses[i].attached || !s.writable {
      ServingOwner(t);
      if s.done in s.flushes && s.flushes[k] != s.done { DoneKept(s, k); }
    } else {
      FlushSends(t, i);
      var u := Put(t, i, t.responses[i].(output := [])).(wire := t.wire + Concat(t.responses[i].output));
      if t.responses[i].finished { FinishInv(u, i); }
    }
  }

  lemma DoneKept(s: State, k: nat)
    requires k < |s.flushes| && s.flushes[k] != s.done && s.done in s.flushes
    ensures s.done in s.flushes[..k] + s.flushes[k + 1..]
  {
    var j :| 0 <= j < |s.flushes| && s.flushes[j] == s.done;
    var rest := s.flushes[..k] + s.flushes[k + 1..];
    assert rest[if j < k then j else j - 1] == s.done;
  }

  /** A fresh response. */
  function Fresh(plan: Plan): Response { Response(plan, false, false, false, false, false, [], [], false) }

  lemma FreshWell(plan: Plan)
    requires plan.header != ""
    ensures Well(Fresh(plan)) && Well(Fresh(plan).(attached := true)) && Message(Fresh(plan)) == "" && Message(Fresh(plan).(attached := true)) == ""
  {
  }

  lemma IncomingWell(s: State, plan: Plan)
    requires Core(s) && plan.header != "" && !s.closed && !s.inputEnded
    ensures var u := Incoming(s, plan);
            && u.done <= |u.responses| && u.closed == s.closed && u.done == s.done && !u.broken && u.wire == s.wire && u.writable == s.writable
            && (forall i :: 0 <= i < |u.responses| ==> Well(u.responses[i]) && (u.responses[i].served <==> i < u.done))
            && (forall i :: 0 <= i < |u.responses| ==> (u.responses[i].attached <==> u.httpMessage == Some(i)))
            && (forall k :: 0 <= k < |u.flushes| ==> u.flushes[k] < |u.responses|)
  {
    hide Message, Messages, Pieces, Concat, Well;
    FreshWell(plan);
  }

  lemma IncomingServing(s: State, plan: Plan)
    requires Core(s) && plan.header != "" && !s.closed && !s.inputEnded
    ensures s.done <= |Incoming(s, plan).responses| && Serving(Incoming(s, plan))
  {
    hide Message, Messages, Pieces, Concat, Well;
    FreshWell(plan);
    ConcatNone<char>();
    var u := Incoming(s, plan);
    assert u.responses[..s.done] == s.responses[..s.done];
    if s.httpMessage.None? {
      assert s.responses[..s.done] == s.responses;
      assert s.wire + "" == s.wire && Messages(s.responses) + "" == Messages(s.responses);
    }
  }

  lemma IncomingClosed(s: State, plan: Plan)
    requires Core(s) && plan.header != "" && s.closed
    ensures Core(Incoming(s, plan))
  {
    hide Message, Messages, Pieces, Concat, Well;
    FreshWell(plan);
    var u := Incoming(s, plan);
    assert u.responses[..s.done] == s.responses[..s.done];
  }

  lemma IncomingInv(s: State, plan: Plan)
    requires Inv(s) && Enabled(s, ERequest(plan))
    ensures Inv(Incoming(s, plan))
  {
    hide Message, Messages, Pieces, Concat, Well, Serving, Closed;
    if s.closed {
      IncomingClosed(s, plan);
    } else {
      ServingOwner(s);
      IncomingWell(s, plan);
      IncomingServing(s, plan);
    }
  }

  lemma SocketEndInv(s: State, halfOpen: bool)
    requires Inv(s)
    ensures Inv(SocketEnd(s, halfOpen))
  {
    hide Message, Messages, Pieces, Concat, Well;
    var t := s.(inputEnded := true);
    assert Inv(t);
    if halfOpen {
      if t.outgoing != [] {
        MarkLastInv(t, t.outgoing[|t.outgoing| - 1]);
      } else if t.httpMessage.Some? {
        MarkLastInv(t, t.httpMessage.value);
      }
    }
  }

  lemma MarkLastInv(s: State, i: nat)
    requires Inv(s)
    ensures Inv(MarkLast(s, i))
  {
    hide Core;
    if i < |s.responses| {
      WellAt(s, i);
      LastWell(s.responses[i]);
      ChangeCore(s, i, s.responses[i].(last := true));
    }
  }

  lemma LastWell(r: Response)
    requires Well(r)
    ensures Well(r.(last := true))
  {
    hide Concat, Pieces;
    MessageIs(r, r.(last := true));
  }

  // ----- runs

  lemma StepInv(s: State, e: Event)
    requires Inv(s) && Enabled(s, e)
    ensures Inv(Step(s, e))
  {
    hide Inv, Core, FlushDue, Incoming, WriteHead, Write, End, Flush, SocketEnd;
    match e
    case ERequest(plan) => IncomingInv(s, plan);
    case EHead(i) => WriteHeadInv(s, i);
    case EWrite(i, data, text) => WriteStepInv(s, i, data, text);
    case EEnd(i, data, text) => EndInv(s, i, data, text);
    case EFlush(k) => FlushInv(s, k);
    case ESocketEnd(halfOpen) => SocketEndInv(s, halfOpen);
  }

  lemma WriteStepInv(s: State, i: nat, data: Bytes, text: bool)
    requires Inv(s) && i < |s.responses|
    ensures Inv(Write(s, i, data, text))
  {
    hide Core, FlushDue, Write;
    WriteInv(s, i, data, text);
  }

  /** The invariant holds after every run. */
  lemma {:induction false} RunInv(events: seq<Event>, s: State)
    requires Reaches(events, s)
    ensures Inv(s)
  {
    hide Inv, Step;
    if events == [] {
      InitialInv();
    } else {
      var n := |events| - 1;
      var t :| Reaches(events[..n], t) && Enabled(t, events[n]) && s == Step(t, events[n]);
      RunInv(events[..n], t);
      StepInv(t, events[n]);
    }
  }

  lemma InitialInv()
    ensures Inv(Initial())
  {
  }

  /** `end` up to the point where the response counts as finished. */
  function Ended(s: State, i: nat, data: Bytes, text: bool): (w: State)
    requires i < |s.responses|
    ensures |w.responses| == |s.responses|
  {
    var v := Terminated(Written(s, i, data, text), i);
    Put(v, i, v.responses[i].(finished := true))
  }

  lemma EndAgain(s: State, i: nat, data: Bytes, text: bool)
    requires i < |s.responses| && s.responses[i].finished
    ensures End(s, i, data, text) == s
  {
  }

  lemma EndIs(s: State, i: nat, data: Bytes, text: bool)
    requires i < |s.responses| && !s.responses[i].finished
    ensures var w := Ended(s, i, data, text);
            |w.responses| == |s.responses| &&
            End(s, i, data, text) ==
              if w.responses[i].output != [] then w
              else if !w.responses[i].attached then w.(broken := true)
              else if w.httpMessage == Some(i) then Finish(w, i) else w
  {
    hide Send, Write, WriteHead, Finish, Note;
  }

  lemma HeadSet(s: State, i: nat)
    requires i < |s.responses|
    ensures WriteHead(s, i).responses[i].headerSet && WriteHead(s, i).responses[i].served == s.responses[i].served
  {
  }

  lemma NotServed(s: State, i: nat)
    requires Core(s) && i < |s.responses|
    ensures s.responses[i].served ==> s.responses[i].finished
  {
    hide Concat, Message, Pieces, Messages;
    WellAt(s, i);
  }

  lemma FinishedWell(r: Response)
    requires Well(r) && r.headerSent
    ensures Well(r.(finished := true))
  {
    hide Concat, Pieces;
    MessageIs(r, r.(finished := true));
  }

  lemma FinishedFlush(s: State, i: nat)
    requires FlushDue(s) && i < |s.responses| && s.responses[i].output != []
    ensures FlushDue(Put(s, i, s.responses[i].(finished := true)))
  {
  }
}

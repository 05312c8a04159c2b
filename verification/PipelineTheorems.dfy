/** What the invariant says about whole runs of a connection. */
module PipelineTheorems {
  import opened Sequences
  import opened Wrappers
  import opened PipelineSteps
  import opened PipelineSafety
  import opened PipelineRuns

  /** The responses that gave the socket back are on the wire in full; of the one that has it, all but its output; of the others, nothing. */
  lemma WireIs(events: seq<Event>, s: State)
    requires Reaches(events, s) && !s.closed
    ensures s.done <= |s.responses| && forall i :: 0 <= i < |s.responses| ==> (s.responses[i].served <==> i < s.done)
    ensures s.done < |s.responses| ==>
              s.httpMessage == Some(s.done)
              && s.wire + Concat(s.responses[s.done].output) == Messages(s.responses[..s.done]) + Message(s.responses[s.done])
    ensures s.done == |s.responses| ==> s.httpMessage == None && s.wire == Messages(s.responses)
    ensures forall i :: s.done < i < |s.responses| ==> Concat(s.responses[i].output) == Message(s.responses[i])
  {
    hide Message, Messages, Concat, Pieces;
    RunInv(events, s);
    if s.done == |s.responses| {
      assert s.responses[..s.done] == s.responses;
      assert s.wire + "" == s.wire && Messages(s.responses) + "" == Messages(s.responses);
    }
    forall i | s.done < i < |s.responses| ensures Concat(s.responses[i].output) == Message(s.responses[i]) {
      assert Well(s.responses[i]);
    }
  }

  lemma Shorter(w: Bytes, x: Bytes, m: Bytes, all: Bytes)
    requires w + x == m && m <= all
    ensures w <= all
  {
  }

  /** Whatever order handlers write and end in, the wire carries the responses' bytes in request order. */
  lemma RequestOrder(events: seq<Event>, s: State)
    requires Reaches(events, s)
    ensures s.wire <= Messages(s.responses)
  {
    hide Message, Messages, Concat, Pieces;
    RunInv(events, s);
    if s.closed {
      MessagesPrefix(s.responses, s.done);
    } else {
      WireIs(events, s);
      if s.done < |s.responses| {
        MessagesNext(s.responses, s.done);
        MessagesPrefix(s.responses, s.done + 1);
        Shorter(s.wire, Concat(s.responses[s.done].output), Messages(s.responses[..s.done + 1]), Messages(s.responses));
      }
    }
  }

  /** No assertion fails, `end` never reads a null connection, and the socket's owner is the one response that is attached. */
  lemma AssertionsHold(events: seq<Event>, s: State)
    requires Reaches(events, s)
    ensures !s.broken
    ensures forall i :: 0 <= i < |s.responses| ==> (s.responses[i].attached <==> s.httpMessage == Some(i))
    ensures forall i, j :: 0 <= i < |s.responses| && 0 <= j < |s.responses| && s.responses[i].attached && s.responses[j].attached ==> i == j
  {
    hide Message, Messages, Concat, Pieces;
    RunInv(events, s);
  }

  /**
   * With no flush due and the socket writable, nothing a handler asked for is held back without need: everything is on the
   * wire up to and including the response that has the socket, and that one has not ended.
   */
  lemma NothingHeldBack(events: seq<Event>, s: State)
    requires Reaches(events, s) && s.flushes == [] && s.writable
    ensures s.httpMessage.Some? ==> var i := s.httpMessage.value;
                                    i < |s.responses| && !s.responses[i].finished && s.wire == Messages(s.responses[..i + 1])
    ensures s.httpMessage.None? ==> s.wire == Messages(s.responses)
  {
    hide Message, Messages, Concat, Pieces;
    RunInv(events, s);
    WireIs(events, s);
    if s.done < |s.responses| {
      MessagesNext(s.responses, s.done);
      ConcatNone<char>();
      assert s.wire + "" == s.wire;
    }
  }

  /** Once every handler has ended its response, every response is on the wire. */
  lemma AllAnswered(events: seq<Event>, s: State)
    requires Reaches(events, s) && s.flushes == [] && s.writable
    requires forall i :: 0 <= i < |s.responses| ==> s.responses[i].finished
    ensures s.wire == Messages(s.responses) && s.httpMessage.None?
  {
    hide Messages;
    NothingHeldBack(events, s);
  }

  // ----- a socket that is no longer writable

  lemma SendFrozen(s: State, i: nat, data: Bytes, text: bool)
    requires i < |s.responses| && !s.writable
    ensures Send(s, i, data, text).wire == s.wire && !Send(s, i, data, text).writable
  {
  }

  lemma ChunkFrozen(s: State, i: nat, data: Bytes, text: bool)
    requires i < |s.responses| && !s.writable
    ensures SendChunk(s, i, data, text).wire == s.wire && !SendChunk(s, i, data, text).writable
  {
    hide Send, Hex;
    var len := Hex(|data|);
    if !s.responses[i].plan.chunked {
      SendFrozen(s, i, data, text);
    } else if text {
      SendFrozen(s, i, len + CRLF + data + CRLF, true);
    } else {
      SendFrozen(s, i, len, true);
      var a := Send(s, i, len, true);
      SendFrozen(a, i, CRLF, false);
      var b := Send(a, i, CRLF, false);
      SendFrozen(b, i, data, false);
      SendFrozen(Send(b, i, data, false), i, CRLF, false);
    }
  }

  lemma WriteFrozen(s: State, i: nat, data: Bytes, text: bool)
    requires i < |s.responses| && !s.writable
    ensures Write(s, i, data, text).wire == s.wire && !Write(s, i, data, text).writable
  {
    hide SendChunk;
    ChunkFrozen(Note(WriteHead(s, i), i, Chunk(data)), i, data, text);
  }

  lemma FinishFrozen(s: State, i: nat)
    requires i < |s.responses| && !s.writable
    ensures Finish(s, i).wire == s.wire && !Finish(s, i).writable
  {
  }

  lemma EndFrozen(s: State, i: nat, data: Bytes, text: bool)
    requires i < |s.responses| && !s.writable
    ensures End(s, i, data, text).wire == s.wire && !End(s, i, data, text).writable
  {
    hide Write, WriteHead, Send, Finish;
    var u := Written(s, i, data, text);
    WrittenFrozen(s, i, data, text);
    TerminatedFrozen(u, i);
    var v := Terminated(u, i);
    FinishFrozen(Put(v, i, v.responses[i].(finished := true)), i);
  }

  lemma WrittenFrozen(s: State, i: nat, data: Bytes, text: bool)
    requires i < |s.responses| && !s.writable
    ensures Written(s, i, data, text).wire == s.wire && !Written(s, i, data, text).writable
  {
    hide Write;
    WriteFrozen(WriteHead(s, i), i, data, text);
  }

  lemma TerminatedFrozen(u: State, i: nat)
    requires i < |u.responses| && !u.writable
    ensures Terminated(u, i).wire == u.wire && !Terminated(u, i).writable
  {
    hide Send;
    var p := u.responses[i].plan;
    SendFrozen(Note(u, i, Terminator), i, if p.chunked then "0\r\n" + p.trailer + CRLF else "", true);
  }

  /** After the last response, or after the server has closed its side, nothing more is sent, whoever writes. */
  lemma NothingAfterLast(s: State, e: Event)
    requires Enabled(s, e) && !s.writable
    ensures Step(s, e).wire == s.wire && !Step(s, e).writable
  {
    hide Write, End, Finish;
    match e
    case EWrite(i, data, text) => WriteFrozen(s, i, data, text);
    case EEnd(i, data, text) => EndFrozen(s, i, data, text);
    case _ =>
  }

  // ----- a write after the end

  /**
   * `write` does not look at `finished`: a write to an ended response changes what goes out exactly if the response
   * still waits for the socket, may have a body, and the data is not empty.
   */
  lemma WriteAfterEnd(events: seq<Event>, s: State, i: nat, data: Bytes, text: bool)
    requires Reaches(events, s) && i < |s.responses| && s.responses[i].finished
    ensures var t := Write(s, i, data, text);
            Message(t.responses[i]) != Message(s.responses[i]) <==> !s.responses[i].served && s.responses[i].plan.hasBody && data != ""
  {
    hide SendChunk, Messages, Concat, Pieces, Message, Hex;
    RunInv(events, s);
    var r := s.responses[i];
    WellAt(s, i);
    assert s.responses[i := r] == s.responses;
    var t := Write(s, i, data, text);
    if r.plan.hasBody && data != "" {
      ChunkGrows(Note(s, i, Chunk(data)), i, data, text);
      var q := t.responses[i];
      if r.served {
        MessageIs(r, q);
      } else {
        NotedMessage(r, Chunk(data));
        MessageIs(r.(parts := r.parts + [Chunk(data)]), q);
        EncodeNonEmpty(r.plan, data);
      }
    }
  }

  lemma EncodeNonEmpty(plan: Plan, data: Bytes)
    requires data != ""
    ensures Encode(plan, Chunk(data)) != ""
  {
  }

  // ----- a run in which that happens

  const PLAIN: Plan := Plan("H", "", false, true, false)

  /** Two requests; the second response is ended, then written to; then the first is ended and the second flushed. */
  const LATE: seq<Event> :=
    [ERequest(PLAIN), ERequest(PLAIN), EEnd(1, "", true), EWrite(1, "x", true), EEnd(0, "", true), EFlush(1)]

  function Untouched(attached: bool): Response { Response(PLAIN, false, false, false, false, attached, [], [], false) }

  function Over(attached: bool, output: seq<Bytes>, parts: seq<Part>, served: bool): Response {
    Response(PLAIN, true, true, true, false, attached, output, parts, served)
  }

  /** The states of the run. */
  function Late(n: nat): State {
    if n == 0 then Initial()
    else if n == 1 then State([Untouched(true)], Some(0), [], [0], true, false, "", [0], 0, false, false)
    else if n <= 4 then State([Untouched(true), LateSecond(n)], Some(0), [1], [0, 1], true, false, "", [0], 0, false, false)
    else if n == 5 then
      State([Over(false, [], [Terminator], true), Over(true, ["H", "x"], [Terminator, Chunk("x")], false)],
            Some(1), [], [1], true, false, "H", [0, 1], 1, false, false)
    else State([Over(false, [], [Terminator], true), Over(false, [], [Terminator, Chunk("x")], true)], None, [], [], true, false, "HHx", [0], 2, false, false)
  }

  function LateSecond(n: nat): Response {
    if n <= 2 then Untouched(false)
    else if n == 3 then Over(false, ["H"], [Terminator], false)
    else Over(false, ["H", "x"], [Terminator, Chunk("x")], false)
  }

  lemma Late0()
    ensures Enabled(Late(0), LATE[0]) && Step(Late(0), LATE[0]) == Late(1)
  {
  }

  lemma Late1()
    ensures Enabled(Late(1), LATE[1]) && Step(Late(1), LATE[1]) == Late(2)
  {
  }

  lemma Late2()
    ensures Enabled(Late(2), LATE[2]) && Step(Late(2), LATE[2]) == Late(3)
  {
    var s, first, r := Late(2), Untouched(true), Untouched(false).(headerSet := true);
    var t := WriteHead(s, 1);
    assert t.responses == [first, r];
    var u := Note(t, 1, Terminator);
    assert r.parts + [Terminator] == [Terminator] && r.output + ["H"] == ["H"];
    assert u.responses == [first, r.(parts := [Terminator])];
    assert "H" + "" == "H";
    assert Send(u, 1, "", true).responses == [first, Over(false, ["H"], [Terminator], false).(finished := false)];
    assert End(s, 1, "", true).responses == [first, Over(false, ["H"], [Terminator], false)];
  }

  lemma Late3()
    ensures Enabled(Late(3), LATE[3]) && Step(Late(3), LATE[3]) == Late(4)
  {
    var s, r := Late(3), LateSecond(3);
    assert r.parts + [Chunk("x")] == [Terminator, Chunk("x")] && r.output + ["x"] == ["H", "x"];
    assert Note(s, 1, Chunk("x")).responses == [Untouched(true), Over(false, ["H"], [Terminator, Chunk("x")], false)];
    assert Write(s, 1, "x", true).responses == [Untouched(true), Over(false, ["H", "x"], [Terminator, Chunk("x")], false)];
  }

  lemma Late4()
    ensures Enabled(Late(4), LATE[4]) && Step(Late(4), LATE[4]) == Late(5)
  {
    var s, second := Late(4), LateSecond(4);
    var r := Untouched(true).(headerSet := true);
    var t := WriteHead(s, 0);
    assert t.responses == [r, second];
    var u := Note(t, 0, Terminator);
    assert r.parts + [Terminator] == [Terminator];
    assert u.responses == [r.(parts := [Terminator]), second];
    assert "" + Concat<char>([]) + ("H" + "") == "H";
    var v := Send(u, 0, "", true);
    var sent := Over(true, [], [Terminator], false);
    assert v.responses == [sent.(finished := false), second] && v.wire == "H";
    LateFinish(Put(v, 0, sent));
  }

  lemma LateFinish(w: State)
    requires w == Late(4).(responses := [Over(true, [], [Terminator], false), LateSecond(4)], wire := "H")
    ensures Finish(w, 0) == Late(5)
  {
    var t := w.(incoming := [1]);
    assert w.incoming[1..] == [1];
    var u := DetachSocket(t, 0);
    assert u.responses == [Over(false, [], [Terminator], true), LateSecond(4)];
    assert AssignSocket(u.(outgoing := []), 1).responses == Late(5).responses;
  }

  lemma Late5()
    ensures Enabled(Late(5), LATE[5]) && Step(Late(5), LATE[5]) == Late(6)
  {
  }

  lemma Extends(events: seq<Event>, s: State, e: Event)
    requires Reaches(events, s) && Enabled(s, e)
    ensures Reaches(events + [e], Step(s, e))
  {
    hide Step;
    assert (events + [e])[..|events|] == events;
  }

  lemma {:induction false} LateRun(n: nat)
    requires n <= 6
    ensures Reaches(LATE[..n], Late(n))
  {
    hide Step, Late, Enabled;
    if n == 0 {
      LateStart();
    } else {
      LateRun(n - 1);
      Late0();
      Late1();
      Late2();
      Late3();
      Late4();
      Late5();
      Extends(LATE[..n - 1], Late(n - 1), LATE[n - 1]);
      assert LATE[..n - 1] + [LATE[n - 1]] == LATE[..n];
    }
  }

  lemma LateStart()
    ensures Late(0) == Initial()
  {
  }

  /** The second response has ended with its header alone, and what is written to it then goes out all the same. */
  lemma LateWriteSent()
    ensures Reaches(LATE[..3], Late(3)) && Late(3).responses[1].finished && Concat(Late(3).responses[1].output) == "H"
    ensures Reaches(LATE, Late(6)) && Late(6).wire == "HHx" && Late(6).done == 2
  {
    hide Reaches;
    LateRun(3);
    LateRun(6);
    assert LATE[..6] == LATE;
    ConcatOne("H");
  }
}

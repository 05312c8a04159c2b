/** When a connection is closed: after the response that is marked as the last, and after the client has ended its side. */
module PipelineClosing {
  import opened Wrappers
  import opened PipelineSteps
  import opened PipelineSafety
  import opened PipelineRuns
  import opened PipelineTheorems
  import opened PipelineHistory

  /** A response is marked as the last by its header, or by the client's end. */
  ghost predicate Marked(r: Response, inputEnded: bool) {
    (r.headerSet && r.plan.last ==> r.last) && (r.last ==> (r.headerSet && r.plan.last) || inputEnded)
  }

  /** Of the responses that were served only the one that closed the connection was the last. */
  ghost predicate Ending(s: State) {
    && s.done <= |s.responses|
    && (forall i :: 0 <= i < |s.responses| ==> Marked(s.responses[i], s.inputEnded))
    && (forall i :: 0 <= i < s.done ==> (s.responses[i].last <==> s.closed && i == s.done - 1))
    && (s.closed ==> s.done > 0)
    && (forall j :: 0 <= j < |s.outgoing| ==> s.done <= s.outgoing[j])
    && (s.inputEnded && s.writable ==> s.done < |s.responses| && s.responses[|s.responses| - 1].last)
  }

  /** Only what is not served can come to be the last. */
  lemma TookEnding(s: State, t: State, i: nat, parts: seq<Part>)
    requires Core(s) && Ending(s) && Only(s, t, i) && Took(s.responses[i], t.responses[i], parts)
    ensures Ending(t)
  {
    hide Core;
    ServedSet(s, i);
  }

  lemma ServedSet(s: State, i: nat)
    requires Core(s) && i < |s.responses|
    ensures i < s.done ==> s.responses[i].headerSet
  {
    hide Serving, Closed, Message, Pieces;
  }

  lemma DetachEnding(s: State, i: nat)
    requires Complete(s, i)
    ensures i == s.done < |s.responses| && !s.closed && forall j :: 0 <= j < |s.outgoing| ==> s.outgoing[j] == i + 1 + j && s.outgoing[j] < |s.responses|
  {
    hide Well, Messages, Message;
  }

  /** What giving the socket back does besides. */
  lemma FinishFields(s: State, i: nat)
    requires Complete(s, i)
    ensures var t := Finish(s, i);
            && t.done == s.done + 1 && t.inputEnded == s.inputEnded
            && t.closed == s.responses[i].last && (t.writable <==> s.writable && !t.closed)
            && t.outgoing == if t.closed || s.outgoing == [] then s.outgoing else s.outgoing[1..]
  {
    hide Complete;
    DetachEnding(s, i);
  }

  lemma FinishEnding(s: State, i: nat)
    requires Complete(s, i) && Ending(s)
    ensures Ending(Finish(s, i))
  {
    hide Complete, Finish;
    DetachEnding(s, i);
    FinishFields(s, i);
    FinishHands(s, i);
  }

  lemma EndEnding(s: State, i: nat, data: Bytes, text: bool)
    requires Inv(s) && Ending(s) && i < |s.responses|
    ensures Ending(End(s, i, data, text))
  {
    hide Core, FlushDue, Ended, Finish, Ending, End;
    if s.responses[i].finished {
      EndAgain(s, i, data, text);
    } else {
      var w := Ended(s, i, data, text);
      EndIs(s, i, data, text);
      EndedTook(s, i, data, text);
      TookEnding(s, w, i, Chunks(s.responses[i].plan, data) + [Terminator]);
      EndedCore(s, i, data, text);
      if w.responses[i].output == [] { FinishEnding(w, i); }
    }
  }

  lemma FlushEnding(s: State, k: nat)
    requires Inv(s) && Ending(s) && k < |s.flushes|
    ensures Ending(Flush(s, k))
  {
    hide Core, Finish, Sequences.Concat;
    var i := s.flushes[k];
    var t := s.(flushes := s.flushes[..k] + s.flushes[k + 1..]);
    if i < |s.responses| && s.responses[i].attached && s.writable {
      RemoveFlush(s, k);
      FlushSends(t, i);
      var u := Put(t, i, t.responses[i].(output := [])).(wire := t.wire + Sequences.Concat(t.responses[i].output));
      assert Ending(u);
      if t.responses[i].finished { FinishEnding(u, i); }
    }
  }

  lemma RequestEnding(s: State, plan: Plan)
    requires Inv(s) && Ending(s) && Enabled(s, ERequest(plan))
    ensures Ending(Incoming(s, plan))
  {
    hide Well, Messages, Message;
  }

  lemma ClientEnding(s: State, halfOpen: bool)
    requires Inv(s) && Ending(s) && Enabled(s, ESocketEnd(halfOpen))
    ensures Ending(SocketEnd(s, halfOpen))
  {
    hide Well, Messages, Message, FlushDue;
    if s.httpMessage.Some? { OwnerUnserved(s, s.httpMessage.value); }
  }

  lemma OwnerUnserved(s: State, i: nat)
    requires Core(s) && s.httpMessage == Some(i) && i < |s.responses|
    ensures s.done <= i
  {
    hide Serving, Closed, Message, Pieces;
  }

  lemma StepEnding(s: State, e: Event)
    requires Inv(s) && Ending(s) && Enabled(s, e)
    ensures Ending(Step(s, e))
  {
    hide Core, FlushDue, Ending, Incoming, WriteHead, Write, End, Flush, SocketEnd;
    match e
    case ERequest(plan) => RequestEnding(s, plan);
    case EHead(i) =>
      HeadTook(s, i);
      TookEnding(s, WriteHead(s, i), i, []);
    case EWrite(i, data, text) =>
      WriteTook(s, i, data, text);
      TookEnding(s, Write(s, i, data, text), i, Chunks(s.responses[i].plan, data));
    case EEnd(i, data, text) => EndEnding(s, i, data, text);
    case EFlush(k) => FlushEnding(s, k);
    case ESocketEnd(halfOpen) => ClientEnding(s, halfOpen);
  }

  lemma {:induction false} RunEnding(events: seq<Event>, s: State)
    requires Reaches(events, s)
    ensures Inv(s) && Ending(s)
  {
    hide Inv, Ending, Step;
    RunInv(events, s);
    if events == [] {
      InitialEnding();
    } else {
      var n := |events| - 1;
      var t :| Reaches(events[..n], t) && Enabled(t, events[n]) && s == Step(t, events[n]);
      RunEnding(events[..n], t);
      StepEnding(t, events[n]);
    }
  }

  lemma InitialEnding()
    ensures Ending(Initial())
  {
  }

  // ----- theorems

  /**
   * A response that is marked as the last and has been served has closed the connection: it is the last one served, and
   * the wire carries the responses up to it and nothing else. A connection is closed by no other response.
   */
  lemma LastCloses(events: seq<Event>, s: State)
    requires Reaches(events, s)
    ensures forall i :: 0 <= i < |s.responses| && s.responses[i].served && s.responses[i].last ==>
              s.closed && !s.writable && i == s.done - 1 && s.wire == Messages(s.responses[..i + 1])
    ensures s.closed ==> 0 < s.done <= |s.responses| && s.responses[s.done - 1].served && s.responses[s.done - 1].last
    ensures forall i :: 0 <= i < |s.responses| && s.responses[i].served && s.responses[i].plan.last ==> s.responses[i].last
    ensures forall i :: 0 <= i < |s.responses| && s.responses[i].last && !s.inputEnded ==> s.responses[i].plan.last
  {
    hide Reaches, Well, Messages, Serving, FlushDue, Marked;
    RunEnding(events, s);
    forall i | 0 <= i < |s.responses|
      ensures (s.responses[i].served && s.responses[i].plan.last ==> s.responses[i].last) && (s.responses[i].last && !s.inputEnded ==> s.responses[i].plan.last)
    {
      MarkedAt(s, i);
    }
  }

  lemma MarkedAt(s: State, i: nat)
    requires Core(s) && Ending(s) && i < |s.responses|
    ensures s.responses[i].served && s.responses[i].plan.last ==> s.responses[i].last
    ensures s.responses[i].last && !s.inputEnded ==> s.responses[i].plan.last
  {
    hide Core;
    assert Marked(s.responses[i], s.inputEnded);
    ServedSet(s, i);
    ServedIs(s, i);
  }

  lemma ServedIs(s: State, i: nat)
    requires Core(s) && i < |s.responses|
    ensures s.responses[i].served <==> i < s.done
  {
    hide Serving, Closed, Well;
  }

  /** Once the client has ended its side and all responses have ended and gone out, the server has ended its own. */
  lemma ClosedAfterClient(events: seq<Event>, s: State)
    requires Reaches(events, s) && s.inputEnded && s.flushes == []
    requires forall i :: 0 <= i < |s.responses| ==> s.responses[i].finished
    ensures !s.writable
  {
    hide Messages;
    RunEnding(events, s);
    if s.writable {
      AllAnswered(events, s);
      WireIs(events, s);
    }
  }

  /** Without half-open connections the client's end stops everything at once, and no request is left to be answered. */
  lemma {:induction false} StoppedByClient(events: seq<Event>, s: State)
    requires Reaches(events, s) && ESocketEnd(false) in events
    ensures !s.writable && s.inputEnded && s.incoming == []
  {
    hide Step;
    var n := |events| - 1;
    var t :| Reaches(events[..n], t) && Enabled(t, events[n]) && s == Step(t, events[n]);
    if events[n] == ESocketEnd(false) {
      EndsAtOnce(t);
    } else {
      StoppedByClient(events[..n], t);
      NothingAfterLast(t, events[n]);
      StaysStopped(t, events[n]);
    }
  }

  lemma EndsAtOnce(s: State)
    requires Enabled(s, ESocketEnd(false))
    ensures var t := Step(s, ESocketEnd(false));
            !t.writable && t.inputEnded && t.incoming == []
  {
  }

  lemma StaysStopped(s: State, e: Event)
    requires Enabled(s, e) && s.inputEnded && s.incoming == []
    ensures Step(s, e).inputEnded && Step(s, e).incoming == []
  {
    hide WriteHead, Write, End, Flush;
    match e
    case EHead(i) => HeadTook(s, i);
    case EWrite(i, data, text) => WriteTook(s, i, data, text);
    case EEnd(i, data, text) => EndStopped(s, i, data, text);
    case EFlush(k) => FlushStopped(s, k);
    case _ =>
  }

  lemma EndStopped(s: State, i: nat, data: Bytes, text: bool)
    requires i < |s.responses| && s.inputEnded && s.incoming == []
    ensures End(s, i, data, text).inputEnded && End(s, i, data, text).incoming == []
  {
    hide Ended, Finish, End;
    if s.responses[i].finished {
      EndAgain(s, i, data, text);
    } else {
      EndIs(s, i, data, text);
      EndedTook(s, i, data, text);
      FinishStopped(Ended(s, i, data, text), i);
    }
  }

  lemma FlushStopped(s: State, k: nat)
    requires k < |s.flushes| && s.inputEnded && s.incoming == []
    ensures Flush(s, k).inputEnded && Flush(s, k).incoming == []
  {
    hide Finish, Sequences.Concat;
    var i := s.flushes[k];
    if i < |s.responses| {
      var t := s.(flushes := s.flushes[..k] + s.flushes[k + 1..]);
      FinishStopped(Put(t, i, t.responses[i].(output := [])).(wire := t.wire + Sequences.Concat(t.responses[i].output)), i);
    }
  }

  lemma FinishStopped(s: State, i: nat)
    requires i < |s.responses| && s.inputEnded && s.incoming == []
    ensures Finish(s, i).inputEnded && Finish(s, i).incoming == []
  {
  }
}

/** What a run of a connection has asked of its responses, and when it closes the connection, read off the events alone. */
module PipelineHistory {
  import opened Wrappers
  import opened PipelineSteps
  import opened PipelineSafety
  import opened PipelineRuns
  import opened PipelineChunks

  // ----- what the handlers have asked for

  /** The plans of the requests, in the order they came in. */
  function Plans(events: seq<Event>): seq<Plan> {
    if events == [] then []
    else Plans(events[..|events| - 1]) + match events[|events| - 1] case ERequest(plan) => [plan] case _ => []
  }

  /** Response `i` has been ended. */
  predicate HasEnded(events: seq<Event>, i: nat) { exists k :: 0 <= k < |events| && events[k].EEnd? && events[k].i == i }

  function Chunks(plan: Plan, data: Bytes): seq<Part> { if plan.hasBody && data != "" then [Chunk(data)] else [] }

  /** What a call asks of response `i`: only the first `end` counts. */
  function AskedBy(plan: Plan, e: Event, i: nat, ended: bool): seq<Part> {
    match e
    case EWrite(j, data, _) => if j == i then Chunks(plan, data) else []
    case EEnd(j, data, _) => if j == i && !ended then Chunks(plan, data) + [Terminator] else []
    case _ => []
  }

  /** What the handler of response `i` has asked for, in the order of its calls. */
  function Asked(events: seq<Event>, i: nat, plan: Plan): seq<Part> {
    if events == [] then []
    else
      var before := events[..|events| - 1];
      Asked(before, i, plan) + AskedBy(plan, events[|events| - 1], i, HasEnded(before, i))
  }

  // ----- what the steps leave alone

  /** Only response `i` and the wire have changed. */
  predicate Only(s: State, t: State, i: nat) {
    i < |s.responses| == |t.responses| && t == s.(responses := s.responses[i := t.responses[i]], wire := t.wire)
  }

  /** A response has sent or kept something. */
  predicate Sent(r: Response, q: Response) { q == r.(headerSent := q.headerSent, output := q.output) }

  /** A response has taken `parts`; besides, only its header, its end and what it sends have changed. */
  predicate Took(r: Response, q: Response, parts: seq<Part>) {
    && q == r.(headerSet := q.headerSet, headerSent := q.headerSent, last := q.last, finished := q.finished, output := q.output, parts := q.parts)
    && q.parts == (if r.served then r.parts else r.parts + parts)
    && q.headerSet && q.last == (if r.headerSet then r.last else r.last || r.plan.last)
  }

  lemma OnlyPut(s: State, i: nat, q: Response)
    requires i < |s.responses|
    ensures Only(s, Put(s, i, q), i)
  {
  }

  lemma OnlyTwice(s: State, t: State, u: State, i: nat)
    requires Only(s, t, i) && Only(t, u, i)
    ensures Only(s, u, i)
  {
    assert s.responses[i := t.responses[i]][i := u.responses[i]] == s.responses[i := u.responses[i]];
  }

  lemma RawSent(s: State, i: nat, data: Bytes)
    requires i < |s.responses|
    ensures var t := WriteRaw(s, i, data);
            Only(s, t, i) && Sent(s.responses[i], t.responses[i])
  {
    hide Sequences.Concat;
    if data == "" { assert s.responses[i := s.responses[i]] == s.responses; }
  }

  lemma SendSent(s: State, i: nat, data: Bytes, text: bool)
    requires i < |s.responses|
    ensures Only(s, Send(s, i, data, text), i) && Sent(s.responses[i], Send(s, i, data, text).responses[i])
  {
    hide WriteRaw, Only;
    var r := s.responses[i];
    if r.headerSent {
      RawSent(s, i, data);
    } else if text {
      HeaderSent(s, i, r.(headerSent := true), r.plan.header + data);
    } else {
      HeaderSent(s, i, r.(headerSent := true, output := [r.plan.header] + r.output), data);
    }
  }

  lemma HeaderSent(s: State, i: nat, q: Response, data: Bytes)
    requires i < |s.responses| && Sent(s.responses[i], q)
    ensures var t := WriteRaw(Put(s, i, q), i, data);
            Only(s, t, i) && Sent(s.responses[i], t.responses[i])
  {
    hide WriteRaw, Only;
    OnlyPut(s, i, q);
    RawSent(Put(s, i, q), i, data);
    OnlyTwice(s, Put(s, i, q), WriteRaw(Put(s, i, q), i, data), i);
  }

  lemma ChunkSent(s: State, i: nat, data: Bytes, text: bool)
    requires i < |s.responses|
    ensures Only(s, SendChunk(s, i, data, text), i) && Sent(s.responses[i], SendChunk(s, i, data, text).responses[i])
  {
    hide Send, Hex, Only;
    var len := Hex(|data|);
    if !s.responses[i].plan.chunked {
      SendSent(s, i, data, text);
    } else if text {
      SendSent(s, i, len + CRLF + data + CRLF, true);
    } else {
      var a := Send(s, i, len, true);
      var b := Send(a, i, CRLF, false);
      var c := Send(b, i, data, false);
      SendSent(s, i, len, true);
      SendSent(a, i, CRLF, false);
      SendSent(b, i, data, false);
      SendSent(c, i, CRLF, false);
      OnlyTwice(s, a, b, i);
      OnlyTwice(s, b, c, i);
      OnlyTwice(s, c, Send(c, i, CRLF, false), i);
    }
  }

  lemma HeadTook(s: State, i: nat)
    requires i < |s.responses|
    ensures var t := WriteHead(s, i);
            Only(s, t, i) && Took(s.responses[i], t.responses[i], []) && t.responses[i].finished == s.responses[i].finished
  {
    assert s.responses[i := s.responses[i]] == s.responses;
    assert s.responses[i].parts + [] == s.responses[i].parts;
  }

  lemma NoteTook(s: State, i: nat, part: Part)
    requires i < |s.responses| && s.responses[i].headerSet
    ensures var t := Note(s, i, part);
            Only(s, t, i) && Took(s.responses[i], t.responses[i], [part]) && t.responses[i].finished == s.responses[i].finished
  {
    assert s.responses[i := s.responses[i]] == s.responses;
  }

  lemma TookTwice(r: Response, q: Response, p: Response, x: seq<Part>, y: seq<Part>)
    requires Took(r, q, x) && Took(q, p, y)
    ensures Took(r, p, x + y)
  {
    assert (r.parts + x) + y == r.parts + (x + y);
  }

  lemma WriteTook(s: State, i: nat, data: Bytes, text: bool)
    requires i < |s.responses|
    ensures var r, t := s.responses[i], Write(s, i, data, text);
            Only(s, t, i) && Took(r, t.responses[i], Chunks(r.plan, data)) && t.responses[i].finished == r.finished
  {
    hide SendChunk, Only, WriteHead, Note;
    var t := WriteHead(s, i);
    HeadTook(s, i);
    var plan := s.responses[i].plan;
    if plan.hasBody && data != "" {
      var u := Note(t, i, Chunk(data));
      NoteTook(t, i, Chunk(data));
      OnlyTwice(s, t, u, i);
      TookTwice(s.responses[i], t.responses[i], u.responses[i], [], [Chunk(data)]);
      ChunkSent(u, i, data, text);
      OnlyTwice(s, u, SendChunk(u, i, data, text), i);
      assert [] + [Chunk(data)] == Chunks(plan, data);
    }
  }

  lemma WrittenTook(s: State, i: nat, data: Bytes, text: bool)
    requires i < |s.responses|
    ensures var r, t := s.responses[i], Written(s, i, data, text);
            Only(s, t, i) && Took(r, t.responses[i], Chunks(r.plan, data))
  {
    hide Write, WriteHead, Only;
    HeadTook(s, i);
    var t := WriteHead(s, i);
    if data != "" && t.responses[i].plan.hasBody {
      WriteTook(t, i, data, text);
      OnlyTwice(s, t, Write(t, i, data, text), i);
      TookTwice(s.responses[i], t.responses[i], Write(t, i, data, text).responses[i], [], Chunks(s.responses[i].plan, data));
      assert [] + Chunks(s.responses[i].plan, data) == Chunks(s.responses[i].plan, data);
    }
  }

  /** `end` up to where the response counts as finished. */
  lemma EndedTook(s: State, i: nat, data: Bytes, text: bool)
    requires i < |s.responses|
    ensures var r, t := s.responses[i], Ended(s, i, data, text);
            Only(s, t, i) && Took(r, t.responses[i], Chunks(r.plan, data) + [Terminator]) && t.responses[i].finished
  {
    hide Send, Written, Note, Only;
    var r := s.responses[i];
    var u := Written(s, i, data, text);
    WrittenTook(s, i, data, text);
    var n := Note(u, i, Terminator);
    NoteTook(u, i, Terminator);
    OnlyTwice(s, u, n, i);
    TookTwice(r, u.responses[i], n.responses[i], Chunks(r.plan, data), [Terminator]);
    var p := u.responses[i].plan;
    var v := Terminated(u, i);
    SendSent(n, i, if p.chunked then "0\r\n" + p.trailer + CRLF else "", true);
    OnlyTwice(s, n, v, i);
    var q := v.responses[i].(finished := true);
    OnlyPut(v, i, q);
    OnlyTwice(s, v, Put(v, i, q), i);
  }

  /** Giving the socket back changes who has it, and nothing of what the responses have been asked. */
  predicate Handed(r: Response, q: Response) { q == r.(attached := q.attached, served := q.served) && (r.served ==> q.served) }

  lemma FinishHands(s: State, i: nat)
    requires i < |s.responses|
    ensures var t := Finish(s, i);
            |t.responses| == |s.responses| && forall j :: 0 <= j < |s.responses| ==> Handed(s.responses[j], t.responses[j])
  {
    hide AssignSocket, DetachSocket;
    var t := s.(broken := s.broken || !(s.incoming == [] || s.incoming[0] == i),
                incoming := if s.incoming == [] then [] else s.incoming[1..]);
    var u := DetachSocket(t, i);
    DetachHands(t, i);
    if !u.responses[i].last && u.outgoing != [] && u.outgoing[0] < |u.responses| { AssignHands(u.(outgoing := u.outgoing[1..]), u.outgoing[0]); }
  }

  lemma DetachHands(s: State, i: nat)
    requires i < |s.responses|
    ensures var t := DetachSocket(s, i);
            |t.responses| == |s.responses| && forall j :: 0 <= j < |s.responses| ==> Handed(s.responses[j], t.responses[j])
  {
  }

  lemma AssignHands(s: State, i: nat)
    requires i < |s.responses|
    ensures var t := AssignSocket(s, i);
            |t.responses| == |s.responses| && forall j :: 0 <= j < |s.responses| ==> Handed(s.responses[j], t.responses[j])
  {
  }

  // ----- response by response

  /** What step `e` does to what is known of response `i`. */
  ghost predicate Answers(s: State, e: Event, t: State, i: nat)
    requires i < |s.responses|
  {
    && i < |t.responses|
    && var r, q := s.responses[i], t.responses[i];
       && q.plan == r.plan
       && (q.finished <==> r.finished || (e.EEnd? && e.i == i))
       && (r.served ==> q.served)
       && q.parts == (if r.served then r.parts else r.parts + AskedBy(r.plan, e, i, r.finished))
  }

  lemma StepAnswers(s: State, e: Event, i: nat)
    requires Inv(s) && Enabled(s, e) && i < |s.responses|
    ensures Answers(s, e, Step(s, e), i)
  {
    hide Inv, Incoming, WriteHead, Write, End, Flush, SocketEnd, Answers;
    match e
    case EHead(j) => HeadAnswers(s, j, i);
    case EWrite(j, data, text) => WriteAnswers(s, j, data, text, i);
    case EEnd(j, data, text) => EndAnswers(s, j, data, text, i);
    case EFlush(k) => FlushAnswers(s, k, i);
    case ERequest(plan) => RequestAnswers(s, plan, i);
    case ESocketEnd(halfOpen) => ClientAnswers(s, halfOpen, i);
  }

  lemma HeadAnswers(s: State, j: nat, i: nat)
    requires j < |s.responses| && i < |s.responses|
    ensures Answers(s, EHead(j), WriteHead(s, j), i)
  {
    hide WriteHead;
    HeadTook(s, j);
    assert s.responses[i].parts + [] == s.responses[i].parts;
  }

  lemma WriteAnswers(s: State, j: nat, data: Bytes, text: bool, i: nat)
    requires j < |s.responses| && i < |s.responses|
    ensures Answers(s, EWrite(j, data, text), Write(s, j, data, text), i)
  {
    hide Write;
    WriteTook(s, j, data, text);
    assert s.responses[i].parts + [] == s.responses[i].parts;
  }

  lemma RequestAnswers(s: State, plan: Plan, i: nat)
    requires i < |s.responses|
    ensures Answers(s, ERequest(plan), Incoming(s, plan), i)
  {
    hide AssignSocket;
    var n := |s.responses|;
    var t := s.(responses := s.responses + [Fresh(plan)], incoming := s.incoming + [n]);
    AssignHands(t, n);
    assert s.responses[i].parts + [] == s.responses[i].parts;
  }

  lemma ClientAnswers(s: State, halfOpen: bool, i: nat)
    requires i < |s.responses|
    ensures Answers(s, ESocketEnd(halfOpen), SocketEnd(s, halfOpen), i)
  {
    assert s.responses[i].parts + [] == s.responses[i].parts;
  }

  lemma EndAnswers(s: State, j: nat, data: Bytes, text: bool, i: nat)
    requires Inv(s) && j < |s.responses| && i < |s.responses|
    ensures Answers(s, EEnd(j, data, text), End(s, j, data, text), i)
  {
    hide Core, FlushDue, Finish, Ended, End;
    var r := s.responses[i];
    assert r.parts + [] == r.parts;
    if s.responses[j].finished {
      EndAgain(s, j, data, text);
    } else {
      NotServed(s, j);
      EndIs(s, j, data, text);
      EndedTook(s, j, data, text);
      FinishHands(Ended(s, j, data, text), j);
    }
  }

  lemma FlushAnswers(s: State, k: nat, i: nat)
    requires k < |s.flushes| && i < |s.responses|
    ensures Answers(s, EFlush(k), Flush(s, k), i)
  {
    hide Finish, Sequences.Concat;
    var j := s.flushes[k];
    var r := s.responses[i];
    assert r.parts + [] == r.parts;
    if j < |s.responses| {
      var t := s.(flushes := s.flushes[..k] + s.flushes[k + 1..]);
      FinishHands(Put(t, j, t.responses[j].(output := [])).(wire := t.wire + Sequences.Concat(t.responses[j].output)), j);
    }
  }

  lemma RequestAdds(s: State, plan: Plan)
    ensures var t := Incoming(s, plan);
            |t.responses| == |s.responses| + 1 && Handed(Fresh(plan), t.responses[|s.responses|]) && !t.responses[|s.responses|].served
  {
  }

  /** No other step makes a response. */
  lemma SameCount(s: State, e: Event)
    requires Enabled(s, e) && !e.ERequest?
    ensures |Step(s, e).responses| == |s.responses|
  {
    hide Write, WriteHead, End, Flush;
    match e
    case EEnd(i, data, text) => EndCount(s, i, data, text);
    case EFlush(k) => FlushCount(s, k);
    case _ =>
  }

  lemma EndCount(s: State, i: nat, data: Bytes, text: bool)
    requires i < |s.responses|
    ensures |End(s, i, data, text).responses| == |s.responses|
  {
    hide Ended, Finish, End;
    if s.responses[i].finished {
      EndAgain(s, i, data, text);
    } else {
      EndIs(s, i, data, text);
      FinishHands(Ended(s, i, data, text), i);
    }
  }

  lemma FlushCount(s: State, k: nat)
    requires k < |s.flushes|
    ensures |Flush(s, k).responses| == |s.responses|
  {
    hide Finish, Sequences.Concat;
    var i := s.flushes[k];
    if i < |s.responses| {
      var t := s.(flushes := s.flushes[..k] + s.flushes[k + 1..]);
      FinishHands(Put(t, i, t.responses[i].(output := [])).(wire := t.wire + Sequences.Concat(t.responses[i].output)), i);
    }
  }

  // ----- whole runs

  lemma PlansNext(events: seq<Event>, e: Event)
    ensures Plans(events + [e]) == Plans(events) + match e case ERequest(plan) => [plan] case _ => []
  {
    assert (events + [e])[..|events|] == events;
  }

  lemma AskedNext(events: seq<Event>, e: Event, i: nat, plan: Plan)
    ensures Asked(events + [e], i, plan) == Asked(events, i, plan) + AskedBy(plan, e, i, HasEnded(events, i))
    ensures HasEnded(events + [e], i) <==> HasEnded(events, i) || (e.EEnd? && e.i == i)
  {
    var all := events + [e];
    assert all[..|events|] == events;
    if HasEnded(events, i) {
      var k :| 0 <= k < |events| && events[k].EEnd? && events[k].i == i;
      assert all[k].EEnd? && all[k].i == i;
    }
    if e.EEnd? && e.i == i { assert all[|events|].EEnd? && all[|events|].i == i; }
  }

  /** Nobody writes to a response after ending it. */
  predicate Tidy(events: seq<Event>) {
    forall k :: 0 <= k < |events| && events[k].EWrite? ==> !HasEnded(events[..k], events[k].i)
  }

  /** What is known of response `i` after a run. */
  ghost predicate Known(events: seq<Event>, r: Response, i: nat) {
    && (r.finished <==> HasEnded(events, i))
    && r.parts <= Asked(events, i, r.plan)
    && (!r.served || Tidy(events) ==> r.parts == Asked(events, i, r.plan))
    && (r.finished ==> Terminator in r.parts)
    && NoneEmpty(r.parts)
  }

  lemma KnownNext(events: seq<Event>, s: State, e: Event, i: nat)
    requires Inv(s) && Enabled(s, e) && i < |s.responses| && i < |Step(s, e).responses|
    requires Known(events, s.responses[i], i) && Answers(s, e, Step(s, e), i)
    ensures Known(events + [e], Step(s, e).responses[i], i)
  {
    hide Asked, Core, Step, HasEnded, Tidy;
    var r := s.responses[i];
    AskedNext(events, e, i, r.plan);
    TidyBefore(events, e);
    NotServed(s, i);
    if Tidy(events + [e]) && r.served {
      assert AskedBy(r.plan, e, i, r.finished) == [];
      assert r.parts + [] == r.parts;
    }
  }

  lemma TidyBefore(events: seq<Event>, e: Event)
    ensures Tidy(events + [e]) ==> Tidy(events) && (e.EWrite? ==> !HasEnded(events, e.i))
  {
    hide HasEnded;
    var all := events + [e];
    if Tidy(all) {
      assert all[..|events|] == events && all[|events|] == e;
      forall k | 0 <= k < |events| && events[k].EWrite? ensures !HasEnded(events[..k], events[k].i) {
        assert all[k] == events[k] && all[..k] == events[..k];
      }
    }
  }

  /** A response that does not exist yet has been asked for nothing. */
  lemma {:induction false} NotAsked(events: seq<Event>, s: State, i: nat, plan: Plan)
    requires Reaches(events, s) && i >= |s.responses|
    ensures Asked(events, i, plan) == [] && !HasEnded(events, i)
  {
    hide Step, Asked, AskedBy, Enabled;
    if events == [] {
      assert Asked([], i, plan) == [] by { NothingAsked(i, plan); }
    } else {
      var n := |events| - 1;
      var t :| Reaches(events[..n], t) && Enabled(t, events[n]) && s == Step(t, events[n]);
      Grows(t, events[n]);
      NotAsked(events[..n], t, i, plan);
      NotAskedBy(t, events[n], i, plan);
      AskedNext(events[..n], events[n], i, plan);
      assert events[..n] + [events[n]] == events;
    }
  }

  lemma NothingAsked(i: nat, plan: Plan)
    ensures Asked([], i, plan) == []
  {
  }

  lemma NotAskedBy(s: State, e: Event, i: nat, plan: Plan)
    requires Enabled(s, e) && i >= |s.responses|
    ensures AskedBy(plan, e, i, false) == [] && !(e.EEnd? && e.i == i)
  {
  }

  lemma Grows(s: State, e: Event)
    requires Enabled(s, e)
    ensures |s.responses| <= |Step(s, e).responses|
  {
    hide Step, Incoming;
    if e.ERequest? {
      RequestAdds(s, e.plan);
      assert Step(s, e) == Incoming(s, e.plan) by { StepRequest(s, e.plan); }
    } else {
      SameCount(s, e);
    }
  }

  lemma StepRequest(s: State, plan: Plan)
    requires Enabled(s, ERequest(plan))
    ensures Step(s, ERequest(plan)) == Incoming(s, plan)
  {
  }

  /**
   * In every run there is one response for each request, with its plan, and it has taken exactly what its handler asked
   * for: all of it while it waits or has the socket, and all of it for good if nobody writes to a response after its end.
   */
  lemma {:induction false} AskedIs(events: seq<Event>, s: State)
    requires Reaches(events, s)
    ensures |s.responses| == |Plans(events)|
    ensures forall i :: 0 <= i < |s.responses| ==>
              var r, asked := s.responses[i], Asked(events, i, Plans(events)[i]);
              && r.plan == Plans(events)[i]
              && (r.finished <==> HasEnded(events, i))
              && r.parts <= asked
              && (!r.served || Tidy(events) ==> r.parts == asked)
              && (r.finished ==> Terminator in r.parts)
              && NoneEmpty(r.parts)
  {
    hide Asked, Step, HasEnded, Tidy, Inv, Plans, AskedBy, Enabled;
    if events == [] {
      PlansNone();
    } else {
      var n := |events| - 1;
      var before, e := events[..n], events[n];
      var t :| Reaches(before, t) && Enabled(t, e) && s == Step(t, e);
      assert before + [e] == events;
      AskedIs(before, t);
      RunInv(before, t);
      PlansNext(before, e);
      Grows(t, e);
      forall i | 0 <= i < |t.responses| ensures s.responses[i].plan == Plans(before)[i] && Known(events, s.responses[i], i) {
        StepAnswers(t, e, i);
        KnownNext(before, t, e, i);
      }
      if e.ERequest? {
        RequestKnown(before, t, e.plan);
      } else {
        SameCount(t, e);
      }
    }
  }

  lemma PlansNone()
    ensures Plans([]) == [] && Initial().responses == []
  {
  }

  lemma RequestKnown(events: seq<Event>, s: State, plan: Plan)
    requires Reaches(events, s) && Enabled(s, ERequest(plan))
    ensures var t, n := Step(s, ERequest(plan)), |s.responses|;
            |t.responses| == n + 1 && t.responses[n].plan == plan && Known(events + [ERequest(plan)], t.responses[n], n)
  {
    hide Asked, Incoming, HasEnded, Tidy;
    var n := |s.responses|;
    RequestAdds(s, plan);
    NotAsked(events, s, n, plan);
    AskedNext(events, ERequest(plan), n, plan);
  }

  // ----- what the client reads

  lemma {:induction false} TidyAsked(events: seq<Event>, i: nat, plan: Plan)
    requires Tidy(events)
    ensures forall k :: 0 <= k < |Asked(events, i, plan)| && !(HasEnded(events, i) && k == |Asked(events, i, plan)| - 1) ==> Asked(events, i, plan)[k].Chunk?
  {
    hide HasEnded, Tidy;
    if events != [] {
      var n := |events| - 1;
      assert events[..n] + [events[n]] == events;
      TidyBefore(events[..n], events[n]);
      TidyAsked(events[..n], i, plan);
      AskedNext(events[..n], events[n], i, plan);
    }
  }

  /**
   * The bytes of an ended response are its header and a body from which the client reads exactly the data that was asked
   * for before the end, whichever way it is coded.
   */
  lemma DataArrives(events: seq<Event>, s: State, i: nat)
    requires Reaches(events, s) && i < |s.responses| && HasEnded(events, i)
    ensures var r := s.responses[i];
            var body, data := Body(r.plan, r.parts), Data(Asked(events, i, r.plan));
            && Message(r) == r.plan.header + body
            && (r.plan.chunked ==> Unchunk(body).Some? && Unchunk(body).value.data == data && r.plan.trailer + CRLF <= Unchunk(body).value.rest)
            && (!r.plan.chunked && Tidy(events) ==> body == data)
  {
    hide Reaches, Body, Unchunk, Data, Asked, HasEnded, Tidy, NoneEmpty;
    AskedIs(events, s);
    var r := s.responses[i];
    DataOfPrefix(r.parts, Asked(events, i, r.plan));
    if r.plan.chunked {
      ChunkedBody(r.plan, r.parts);
    } else if Tidy(events) {
      TidyAsked(events, i, r.plan);
      PlainBody(r.plan, r.parts);
    }
  }
}

/** Every step keeps the invariant, and what that says about whole runs. */
module WritableRuns {
  import opened Wrappers
  import opened WritableSteps
  import opened WritableSafety

  // ----- working off the buffer

  /** A completion with the buffer empty or being worked off starts nothing else. */
  lemma OnWriteAlone(o: Options, s: State, rest: seq<Request>, held: multiset<nat>, extra: nat)
    requires Core(o, s, rest, held, extra) && s.writing && (s.bufferProcessing || s.buffer == [])
    ensures var r := OnWrite(o, s);
            Core(o, r, rest, held, extra) && Frame(s, r) && !r.writing && |r.due| > |s.due| && r.buffer == s.buffer
  {
    hide Core;
    var t := StateUpdate(s);
    Settle(o, s, rest, held, extra);
    CallbackShape(o, s, rest, held, extra);
    Put(o, t, rest, held, extra, s.writecb, NeedFinish(t));
  }

  lemma CallbackShape(o: Options, s: State, rest: seq<Request>, held: multiset<nat>, extra: nat)
    requires Core(o, s, rest, held, extra)
    ensures s.writecb.Group? ==> s.writecb.callbacks != []
  {
    hide Promised, Groups, AllCallbacks, Total, Flat;
  }

  lemma SyncIrrelevant(o: Options, s: State, rest: seq<Request>, held: multiset<nat>, extra: nat, sync: bool)
    requires Core(o, s, rest, held, extra)
    ensures Core(o, s.(sync := sync), rest, held, extra)
  {
    hide Promised, Groups, AllCallbacks, Total, Flat;
  }

  /** Requests handed to the sink, with the buffer empty or being worked off. */
  lemma DoWriteAlone(o: Options, s: State, first: seq<Request>, rest: seq<Request>, cb: WriteCallback, held: multiset<nat>, extra: nat)
    requires Core(o, s, first + rest, held, extra) && !s.writing && first != [] && (s.bufferProcessing || s.buffer == [])
    requires cb == Group(Callbacks(first)) || (|first| == 1 && cb == One(first[0].callback))
    ensures var r := DoWrite(o, s.(pendingcb := s.pendingcb + Extra(cb)), Chunks(first), Total(o, first), cb);
            Core(o, r, rest, held, extra) && Frame(s, r) && (r.writing || |r.due| > |s.due|) && r.buffer == s.buffer
  {
    hide Core, OnWrite, Total, Chunks, Callbacks, Frame, DoWrite, Taken;
    Take(o, s, first, rest, cb, held, extra);
    var t := Taken(o, s, first, cb);
    TakenIs(o, s, first, cb);
    if o.prompt(|s.log.calls|) {
      OnWriteAlone(o, t, rest, held, extra);
      var u := OnWrite(o, t);
      SyncIrrelevant(o, u, rest, held, extra, false);
      FrameJoins(s, t, u);
      FrameSync(s, u);
      Kept(s, t);
    } else {
      SyncIrrelevant(o, t, rest, held, extra, false);
      FrameSync(s, t);
    }
  }

  lemma TakenIs(o: Options, s: State, first: seq<Request>, cb: WriteCallback)
    ensures var t := Taken(o, s, first, cb);
            && t.writing && t.buffer == s.buffer && t.bufferProcessing == s.bufferProcessing && Frame(s, t)
            && Begun(s.(pendingcb := s.pendingcb + Extra(cb)), Chunks(first), Total(o, first), cb) == t
            && DoWrite(o, s.(pendingcb := s.pendingcb + Extra(cb)), Chunks(first), Total(o, first), cb) ==
               (if o.prompt(|s.log.calls|) then OnWrite(o, t) else t).(sync := false)
  {
    hide Total, Chunks, OnWrite, Extra;
  }

  lemma FrameSync(s: State, r: State)
    requires Frame(s, r)
    ensures Frame(s, r.(sync := false))
  {
  }

  lemma OneChunk(o: Options, r: Request)
    ensures Chunks([r]) == [r.chunk] && Total(o, [r]) == Size(o, r.chunk)
  {
    assert Total(o, [r][1..]) == 0;
  }

  lemma BufferIrrelevant(o: Options, s: State, rest: seq<Request>, held: multiset<nat>, extra: nat, buffer: seq<Request>, processing: bool)
    requires Core(o, s, rest, held, extra)
    ensures Core(o, s.(buffer := buffer), rest, held, extra) && Core(o, s.(bufferProcessing := processing), rest, held, extra)
  {
    hide Promised, Groups, AllCallbacks, Total, Flat;
  }

  lemma FrameJoins(s: State, t: State, r: State)
    requires Frame(s, t) && Frame(t, r)
    ensures Frame(s, r)
  {
  }

  lemma FrameBuffer(s: State, r: State, buffer: seq<Request>)
    requires Frame(s, r)
    ensures Frame(s, r.(buffer := buffer)) && |r.due| >= |s.due|
  {
  }

  lemma FrameSelf(s: State, buffer: seq<Request>)
    ensures Frame(s, s.(buffer := buffer))
  {
  }

  /** The mark that the buffer is being worked off, set and cleared around a step. */
  lemma FrameMark(s: State, r: State)
    requires Frame(s.(bufferProcessing := true), r) && !s.bufferProcessing
    ensures Frame(s, r.(bufferProcessing := false)) && |r.due| >= |s.due|
  {
  }

  /** One by one, up to the first request the sink keeps. */
  lemma {:induction false} WriteEachCore(o: Options, s: State, rest: seq<Request>, held: multiset<nat>, extra: nat)
    requires Core(o, s, rest, held, extra) && !s.writing && s.bufferProcessing
    ensures var r := WriteEach(o, s, rest);
            && Core(o, r, r.buffer, held, extra) && Frame(s, r)
            && (r.writing || r.buffer == []) && (rest != [] ==> r.writing || |r.due| > |s.due|)
    decreases |rest|
  {
    hide Core, DoWrite, Frame, Total, Size, Chunks, Callbacks;
    if rest == [] {
      FrameSelf(s, []);
      BufferIrrelevant(o, s, rest, held, extra, [], true);
    } else {
      OneChunk(o, rest[0]);
      assert [rest[0]] + rest[1..] == rest;
      DoWriteAlone(o, s, [rest[0]], rest[1..], One(rest[0].callback), held, extra);
      var t := DoWrite(o, s, [rest[0].chunk], Size(o, rest[0].chunk), One(rest[0].callback));
      Kept(s, t);
      if t.writing {
        FrameBuffer(s, t, rest[1..]);
        BufferIrrelevant(o, t, rest[1..], held, extra, rest[1..], true);
      } else {
        WriteEachCore(o, t, rest[1..], held, extra);
        var r := WriteEach(o, t, rest[1..]);
        FrameJoins(s, t, r);
        Kept(t, r);
      }
    }
  }

  lemma Kept(s: State, r: State)
    requires Frame(s, r)
    ensures r.bufferProcessing == s.bufferProcessing && |r.due| >= |s.due|
  {
  }

  /** Working off the buffer leaves nothing behind that no completion will pick up. */
  lemma ClearBufferCore(o: Options, s: State, held: multiset<nat>, extra: nat)
    requires Core(o, s, s.buffer, held, extra) && !s.writing && !s.bufferProcessing && s.buffer != []
    ensures var r := ClearBuffer(o, s);
            && Core(o, r, r.buffer, held, extra) && Frame(s, r)
            && (r.writing || (r.buffer == [] && |r.due| > |s.due|))
  {
    hide Core, DoWrite, WriteEach, Frame, Total, Size, Chunks, Callbacks;
    var t := s.(bufferProcessing := true);
    BufferIrrelevant(o, s, s.buffer, held, extra, s.buffer, true);
    if o.writev && |s.buffer| > 1 {
      LengthIs(o, s, s.buffer, held, extra);
      assert s.buffer + [] == s.buffer;
      DoWriteAlone(o, t, s.buffer, [], Group(Callbacks(s.buffer)), held, extra);
      var v := DoWrite(o, t.(pendingcb := t.pendingcb + 1), Chunks(s.buffer), s.length, Group(Callbacks(s.buffer)));
      FrameBuffer(t, v, []);
      FrameMark(s, v.(buffer := []));
      BufferIrrelevant(o, v, [], held, extra, [], true);
      BufferIrrelevant(o, v.(buffer := []), [], held, extra, [], false);
    } else {
      WriteEachCore(o, t, s.buffer, held, extra);
      var u := WriteEach(o, t, s.buffer);
      FrameMark(s, u);
      BufferIrrelevant(o, u, u.buffer, held, extra, u.buffer, false);
    }
  }

  lemma LengthIs(o: Options, s: State, rest: seq<Request>, held: multiset<nat>, extra: nat)
    requires Core(o, s, rest, held, extra) && !s.writing
    ensures s.length == Total(o, rest)
  {
    hide Promised, Groups, AllCallbacks, Total, Flat;
  }

  // ----- the public calls

  lemma Accept(o: Options, s: State, chunk: Chunk)
    requires Core(o, s, s.buffer, multiset{}, 0) && !s.finished
    ensures Core(o, Booked(o, s, chunk), s.buffer + [Request(chunk, |s.log.accepted|)], multiset{}, 0)
  {
    hide Promised, Groups, Total, Flat, Size, Chunks, Callbacks, AllCallbacks, DueWell, InFlight, InFlightSize, Extra;
    AcceptOrder(o, s, chunk);
    AcceptCallbacks(o, s, chunk);
    var t := Booked(o, s, chunk);
    forall k | 0 <= k < |s.due| ensures DueWell(t, s.due[k]) { SameDue(s, t, s.due[k]); }
    SameFlight(o, s, chunk);
  }

  /** The chunk is the last of what is left to write, and its size is on the books. */
  lemma AcceptOrder(o: Options, s: State, chunk: Chunk)
    requires Flat(s.log.calls) + Chunks(s.buffer) == s.log.accepted
    ensures var rest, t := s.buffer + [Request(chunk, |s.log.accepted|)], Booked(o, s, chunk);
            Flat(t.log.calls) + Chunks(rest) == t.log.accepted && Total(o, rest) == Total(o, s.buffer) + Size(o, chunk)
  {
    hide Total, Flat, Size, Chunks, Callbacks;
    var r := [Request(chunk, |s.log.accepted|)];
    ListsAdd(s.buffer, r);
    TotalAdd(o, s.buffer, r);
    OneChunk(o, r[0]);
    OneCallback(chunk, |s.log.accepted|);
    assert s.log.accepted + [chunk] == Flat(s.log.calls) + (Chunks(s.buffer) + Chunks(r));
  }

  /** One more callback is promised, by the buffer. */
  lemma AcceptCallbacks(o: Options, s: State, chunk: Chunk)
    requires multiset(s.log.called) + Promised(s.due) + multiset(InFlight(s.writecb)) + multiset(Callbacks(s.buffer)) + multiset{} == AllCallbacks(|s.log.accepted|)
    ensures var rest, t := s.buffer + [Request(chunk, |s.log.accepted|)], Booked(o, s, chunk);
            multiset(t.log.called) + Promised(t.due) + multiset(InFlight(t.writecb)) + multiset(Callbacks(rest)) + multiset{} == AllCallbacks(|t.log.accepted|)
  {
    hide Promised, Total, Flat, Size, Chunks, Callbacks, InFlight;
    var n := |s.log.accepted|;
    ListsAdd(s.buffer, [Request(chunk, n)]);
    OneCallback(chunk, n);
    Booking(multiset(s.log.called), Promised(s.due), multiset(InFlight(s.writecb)), Callbacks(s.buffer), n);
  }

  lemma OneCallback(chunk: Chunk, n: nat)
    ensures Callbacks([Request(chunk, n)]) == [n] && Chunks([Request(chunk, n)]) == [chunk] && AllCallbacks(n + 1) == AllCallbacks(n) + multiset{n}
  {
  }

  /** One more callback is promised by the buffer. */
  lemma Booking(m: multiset<nat>, p: multiset<nat>, f: multiset<nat>, b: seq<nat>, n: nat)
    ensures m + p + f + multiset(b + [n]) + multiset{} == m + p + f + multiset(b) + multiset{} + multiset{n}
  {
  }

  lemma SameDue(s: State, t: State, a: AfterWrite)
    requires DueWell(s, a) && t.ending == s.ending
    ensures DueWell(t, a)
  {
  }

  lemma SameFlight(o: Options, s: State, chunk: Chunk)
    ensures var t := Booked(o, s, chunk); InFlightSize(o, t) == InFlightSize(o, s) && InFlight(t.writecb) == InFlight(s.writecb)
  {
  }

  lemma BookedKeeps(o: Options, s: State, chunk: Chunk)
    ensures var r := Booked(o, s, chunk);
            && r.buffer == s.buffer && r.writing == s.writing && r.corked == s.corked && r.bufferProcessing == s.bufferProcessing
            && r.length == s.length + Size(o, chunk)
  {
  }

  lemma WriteInv(o: Options, s: State, chunk: Chunk)
    requires Inv(o, s)
    ensures Inv(o, Write(o, s, chunk))
    ensures var r := Write(o, s, chunk); r.ending == s.ending && r.corked == s.corked && (s.ended ==> r == s)
  {
    hide Core, DoWrite, Total, Size, Chunks, Callbacks;
    if !s.ended {
      var r := Request(chunk, |s.log.accepted|);
      FinishedEnds(o, s);
      Accept(o, s, chunk);
      var t := Booked(o, s, chunk);
      if t.writing || t.corked > 0 {
        BufferIrrelevant(o, t, s.buffer + [r], multiset{}, 0, s.buffer + [r], false);
      } else {
        assert s.buffer + [r] == [r] + [];
        OneChunk(o, r);
        DoWriteAlone(o, t, [r], [], One(r.callback), multiset{}, 0);
        var u := DoWrite(o, t, [chunk], Size(o, chunk), One(r.callback));
        if !u.writing { assert !u.due[|u.due| - 1].drained; }
      }
    }
  }

  lemma FinishedEnds(o: Options, s: State)
    requires Core(o, s, s.buffer, multiset{}, 0)
    ensures s.finished ==> s.ending && !s.writing && s.buffer == []
    ensures !s.writing && Total(o, s.buffer) > 0 ==> s.length > 0
    ensures !s.writing && s.buffer == [] ==> s.length == 0
    ensures !s.writing && s.buffer == [] && s.due == [] ==> s.pendingcb == 0
    ensures s.pendingcb >= 0
  {
    hide AllCallbacks, Flat, Chunks, Callbacks;
    assert s.writing ==> |InFlight(s.writecb)| > 0;
  }

  lemma OnWriteInv(o: Options, s: State)
    requires Inv(o, s) && s.writing
    ensures Inv(o, OnWrite(o, s))
  {
    hide Core, ClearBuffer, Total, Size, Chunks, Callbacks;
    var t := StateUpdate(s);
    FinishedEnds(o, s);
    CallbackShape(o, s, s.buffer, multiset{}, 0);
    Settle(o, s, s.buffer, multiset{}, 0);
    var held, extra := multiset{} + multiset(InFlight(s.writecb)), 0 + Extra(s.writecb);
    LengthIs(o, t, s.buffer, held, extra);
    var finished := NeedFinish(t);
    hide Inv, After, Extra, InFlight, SomeUndrained;
    if !finished && t.corked == 0 && t.buffer != [] {
      ClearBufferCore(o, t, held, extra);
      AfterLast(o, ClearBuffer(o, t), s.writecb, finished);
    } else {
      AfterLast(o, t, s.writecb, finished);
    }
  }

  /** The `afterWrite` is the last thing to be added. */
  lemma AfterLast(o: Options, u: State, cb: WriteCallback, finished: bool)
    requires Core(o, u, u.buffer, multiset{} + multiset(InFlight(cb)), 0 + Extra(cb)) && !u.bufferProcessing && u.ended == u.ending
    requires (finished ==> u.ending) && (cb.Group? ==> cb.callbacks != [])
    requires !u.writing && u.buffer != [] && u.corked == 0 ==> u.ending && Total(o, u.buffer) == 0
    ensures Inv(o, u.(due := u.due + [After(cb, finished)]))
  {
    hide Core, Total;
    Put(o, u, u.buffer, multiset{}, 0, cb, finished);
    var r := u.(due := u.due + [After(cb, finished)]);
    assert !r.due[|r.due| - 1].drained;
  }

  lemma CountersIrrelevant(o: Options, s: State, rest: seq<Request>, held: multiset<nat>, extra: nat, corked: nat, drained: bool, drains: nat)
    requires Core(o, s, rest, held, extra)
    ensures Core(o, s.(corked := corked), rest, held, extra) && Core(o, s.(needDrain := drained, log := s.log.(drains := drains)), rest, held, extra)
  {
    hide Promised, Groups, AllCallbacks, Total, Flat, Chunks, Callbacks;
  }

  lemma CorkInv(o: Options, s: State)
    requires Inv(o, s)
    ensures Inv(o, Cork(s))
  {
    hide Core, Total;
    CountersIrrelevant(o, s, s.buffer, multiset{}, 0, s.corked + 1, false, 0);
  }

  lemma UncorkInv(o: Options, s: State)
    requires Inv(o, s)
    ensures Inv(o, Uncork(o, s))
    ensures s.corked == 1 ==> var r := Uncork(o, s); r.corked == 0 && r.ending == s.ending && (r.writing || r.buffer == [])
  {
    hide Core, ClearBuffer, Total;
    if s.corked > 0 {
      FinishedEnds(o, s);
      CountersIrrelevant(o, s, s.buffer, multiset{}, 0, s.corked - 1, false, 0);
      var t := s.(corked := s.corked - 1);
      if !t.writing && t.corked == 0 && !t.finished && t.buffer != [] {
        ClearBufferCore(o, t, multiset{}, 0);
        var u := ClearBuffer(o, t);
        if !u.writing { assert !u.due[|u.due| - 1].drained; }
      }
    }
  }

  /** Announcing the end. */
  lemma EndingCore(o: Options, s: State, rest: seq<Request>)
    requires Core(o, s, rest, multiset{}, 0) && !s.finished
    ensures Core(o, s.(ending := true, ended := true), rest, multiset{}, 0)
  {
    hide Promised, Groups, AllCallbacks, Total, Flat, Chunks, Callbacks;
  }

  lemma FinishMaybeCore(o: Options, s: State)
    requires Core(o, s, s.buffer, multiset{}, 0)
    ensures Core(o, FinishMaybe(s), s.buffer, multiset{}, 0)
    ensures var r := FinishMaybe(s);
            && r == s.(prefinished := r.prefinished, finished := r.finished, log := s.log.(finishes := r.log.finishes))
            && (s.ending && !s.writing && s.buffer == [] && s.due == [] ==> r.finished)
  {
    hide AllCallbacks, Flat, Chunks, Callbacks, Total, Promised, Groups;
    FinishedEnds(o, s);
  }

  lemma FinishMaybeEnded(s: State)
    ensures FinishMaybe(s.(ending := true)).(ended := true) == FinishMaybe(s.(ending := true, ended := true))
  {
  }

  lemma RecorkInv(o: Options, s: State)
    requires Inv(o, s) && s.corked > 0
    ensures Inv(o, s.(corked := 1))
  {
    hide Core, Total;
    CountersIrrelevant(o, s, s.buffer, multiset{}, 0, 1, false, 0);
  }

  lemma EndInv(o: Options, s: State, last: Option<Chunk>)
    requires Inv(o, s)
    ensures Inv(o, End(o, s, last))
    ensures var r := End(o, s, last);
            r.ended && r.corked == 0 && if s.ended && s.corked == 0 then r == s else r.writing || r.buffer == []
  {
    hide Core, Write, Uncork, FinishMaybe, Total;
    var t := if last.Some? then Write(o, s, last.value) else s;
    if last.Some? { WriteInv(o, s, last.value); }
    var u := if t.corked > 0 then Uncork(o, t.(corked := 1)) else t;
    if t.corked > 0 {
      RecorkInv(o, t);
      UncorkInv(o, t.(corked := 1));
    }
    FinishedEnds(o, u);
    if !u.ending && !u.finished {
      FinishMaybeEnded(u);
      EndingCore(o, u, u.buffer);
      FinishMaybeCore(o, u.(ending := true, ended := true));
    }
  }

  // ----- the phases of afterWrite

  lemma DrainInv(o: Options, s: State, k: nat)
    requires Inv(o, s) && Enabled(s, EDrain(k))
    ensures Inv(o, Drain(s, k))
  {
    hide Total, Core;
    var a := s.due[k].(drained := true);
    UpdateCore(o, s, k, a);
    FinishedEnds(o, s);
    var t := s.(due := s.due[k := a]);
    CountersIrrelevant(o, t, s.buffer, multiset{}, 0, 0, false, s.log.drains + 1);
    if j :| 0 <= j < |s.due| && !s.due[j].drained && j != k { assert !t.due[j].drained; }
    DueEnds(o, s, k);
  }

  lemma DueEnds(o: Options, s: State, k: nat)
    requires Core(o, s, s.buffer, multiset{}, 0) && k < |s.due|
    ensures s.due[k].finished ==> s.ending
    ensures !s.writing && s.length != 0 ==> s.buffer != []
  {
    hide Promised, Groups, AllCallbacks, Flat, Chunks, Callbacks;
    assert DueWell(s, s.due[k]);
  }

  /** Replacing an `afterWrite` by a later phase of itself. */
  lemma UpdateCore(o: Options, s: State, k: nat, a: AfterWrite)
    requires Core(o, s, s.buffer, multiset{}, 0) && k < |s.due|
    requires a == s.due[k].(drained := true)
    ensures Core(o, s.(due := s.due[k := a]), s.buffer, multiset{}, 0)
  {
    hide Promised, Groups, AllCallbacks, Total, Flat, Chunks, Callbacks;
    PromisedUpdate(s.due, k, a);
    Cancel(Promised(s.due[k := a]), Promised(s.due), multiset(a.callbacks));
  }

  lemma CallbackCore(o: Options, s: State, k: nat)
    requires Core(o, s, s.buffer, multiset{}, 0) && k < |s.due| && s.due[k].callbacks != []
    ensures Core(o, Callback(s, k), s.buffer, multiset{}, 0)
  {
    hide AllCallbacks, Total, Flat, Chunks, Callbacks, Promised, Groups, InFlight, Extra;
    var a := s.due[k];
    CallbackPlaces(s, k);
    assert DueWell(s, a);
    var due := Callback(s, k).due;
    forall i | 0 <= i < |due| ensures DueWell(s, due[i]) { assert DueWell(s, s.due[i]); }
    HeadCalled(s.log.called, a.callbacks[0], Promised(s.due), Promised(due), multiset(InFlight(s.writecb)), multiset(Callbacks(s.buffer)));
  }

  lemma CallbackPlaces(s: State, k: nat)
    requires k < |s.due| && s.due[k].callbacks != []
    ensures var due := Callback(s, k).due;
            && Promised(s.due) == Promised(due) + multiset{s.due[k].callbacks[0]} && |Promised(s.due)| == |Promised(due)| + 1
            && Groups(s.due) == Groups(due) + if s.due[k].group then 1 else 0
  {
    hide Promised, Groups;
    var a := s.due[k];
    var b := a.(group := false, callbacks := a.callbacks[1..]);
    PromisedUpdate(s.due, k, b);
    HeadMoves(a.callbacks, Promised(s.due), Promised(s.due[k := b]));
  }

  lemma Cancel(p: multiset<nat>, q: multiset<nat>, x: multiset<nat>)
    requires p + x == q + x
    ensures p == q
  {
    forall c ensures p[c] == q[c] { assert (p + x)[c] == (q + x)[c]; }
  }

  lemma HeadMoves(cs: seq<nat>, p: multiset<nat>, q: multiset<nat>)
    requires cs != [] && q + multiset(cs) == p + multiset(cs[1..])
    ensures p == q + multiset{cs[0]} && |p| == |q| + 1
  {
    assert cs == [cs[0]] + cs[1..];
    assert multiset(cs) == multiset{cs[0]} + multiset(cs[1..]);
    assert q + multiset(cs) == (q + multiset{cs[0]}) + multiset(cs[1..]);
    Cancel(p, q + multiset{cs[0]}, multiset(cs[1..]));
  }

  lemma HeadCalled(called: seq<nat>, c: nat, p: multiset<nat>, q: multiset<nat>, f: multiset<nat>, b: multiset<nat>)
    requires p == q + multiset{c}
    ensures multiset(called + [c]) + q + f + b + multiset{} == multiset(called) + p + f + b + multiset{}
  {
  }

  lemma CallbackInv(o: Options, s: State, k: nat)
    requires Inv(o, s) && Enabled(s, ECallback(k))
    ensures Inv(o, Callback(s, k))
  {
    hide Core, Total;
    CallbackCore(o, s, k);
    StillUndrained(s, k);
  }

  lemma StillUndrained(s: State, k: nat)
    requires k < |s.due| && s.due[k].drained && s.due[k].callbacks != []
    ensures SomeUndrained(s) ==> SomeUndrained(Callback(s, k))
  {
    if j :| 0 <= j < |s.due| && !s.due[j].drained { assert !Callback(s, k).due[j].drained; }
  }

  lemma FinishInv(o: Options, s: State, k: nat)
    requires Inv(o, s) && Enabled(s, EFinish(k))
    ensures Inv(o, Finish(s, k))
  {
    hide Core, Total, FinishMaybe;
    var t := s.(due := s.due[..k] + s.due[k + 1..]);
    RemoveCore(o, s, k);
    FinishMaybeCore(o, t);
    if j :| 0 <= j < |s.due| && !s.due[j].drained { assert !t.due[if j < k then j else j - 1].drained; }
  }

  lemma RemoveCore(o: Options, s: State, k: nat)
    requires Core(o, s, s.buffer, multiset{}, 0) && k < |s.due| && s.due[k].callbacks == []
    ensures Core(o, s.(due := s.due[..k] + s.due[k + 1..]), s.buffer, multiset{}, 0)
  {
    hide Promised, Groups, AllCallbacks, Total, Flat, Chunks, Callbacks;
    PromisedRemove(s.due, k);
    assert DueWell(s, s.due[k]);
    assert Promised(s.due[..k] + s.due[k + 1..]) == Promised(s.due);
  }

  // ----- runs

  /** Every step keeps the invariant. */
  lemma StepInv(o: Options, s: State, e: Event)
    requires Inv(o, s) && Enabled(s, e)
    ensures Inv(o, Step(o, s, e))
  {
    hide Inv, Write, Uncork, End, OnWrite, Drain, Callback, Finish;
    match e
    case EWrite(chunk) => WriteInv(o, s, chunk);
    case ECork => CorkInv(o, s);
    case EUncork => UncorkInv(o, s);
    case EEnd(last) => EndInv(o, s, last);
    case EOnWrite => OnWriteInv(o, s);
    case EDrain(k) => DrainInv(o, s, k);
    case ECallback(k) => CallbackInv(o, s, k);
    case EFinish(k) => FinishInv(o, s, k);
  }

  /** The invariant holds after every run. */
  lemma {:induction false} RunInv(o: Options, events: seq<Event>, s: State)
    requires Reaches(o, events, s)
    ensures Inv(o, s)
  {
    hide Inv, Step;
    if events == [] {
      InitialInv(o);
    } else {
      var n := |events| - 1;
      var t :| Reaches(o, events[..n], t) && Enabled(t, events[n]) && s == Step(o, t, events[n]);
      RunInv(o, events[..n], t);
      StepInv(o, t, events[n]);
    }
  }

  lemma InitialInv(o: Options)
    ensures Inv(o, Initial())
  {
  }
}

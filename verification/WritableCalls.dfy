/** What the calls on a writable stream make of it: which chunks are accepted, and in which calls the sink gets them. */
module WritableCalls {
  import opened Wrappers
  import opened WritableSteps
  import opened WritableSafety
  import opened WritableRuns

  // ----- what the private steps leave alone

  predicate Quiet(s: State, r: State) {
    && r.needDrain == s.needDrain && r.log.drains == s.log.drains && r.prefinished == s.prefinished
    && r.corked == s.corked && r.ended == s.ended && r.log.accepted == s.log.accepted
  }

  lemma OnWriteQuiet(o: Options, s: State)
    ensures Quiet(s, OnWrite(o, s))
    decreases if s.bufferProcessing then 0 else 1, 2, 0
  {
    hide ClearBuffer;
    var t := StateUpdate(s);
    if !t.bufferProcessing { ClearBufferQuiet(o, t); }
  }

  lemma DoWriteQuiet(o: Options, s: State, chunks: seq<Chunk>, len: int, cb: WriteCallback)
    ensures Quiet(s, DoWrite(o, s, chunks, len, cb))
    decreases if s.bufferProcessing then 0 else 1, 3, 0
  {
    hide OnWrite;
    OnWriteQuiet(o, Begun(s, chunks, len, cb));
  }

  lemma WriteEachQuiet(o: Options, s: State, rest: seq<Request>)
    requires s.bufferProcessing
    ensures Quiet(s, WriteEach(o, s, rest))
    decreases 0, 4, |rest|
  {
    hide DoWrite;
    if rest != [] {
      DoWriteQuiet(o, s, [rest[0].chunk], Size(o, rest[0].chunk), One(rest[0].callback));
      WriteEachQuiet(o, DoWrite(o, s, [rest[0].chunk], Size(o, rest[0].chunk), One(rest[0].callback)), rest[1..]);
    }
  }

  lemma WriteAllQuiet(o: Options, s: State)
    requires s.bufferProcessing
    ensures Quiet(s, WriteAll(o, s))
    decreases 0, 4, 0
  {
    hide DoWrite;
    DoWriteQuiet(o, s.(pendingcb := s.pendingcb + 1), Chunks(s.buffer), s.length, Group(Callbacks(s.buffer)));
  }

  lemma ClearBufferQuiet(o: Options, s: State)
    requires !s.bufferProcessing
    ensures Quiet(s, ClearBuffer(o, s))
    decreases 1, 1, 0
  {
    hide WriteAll, WriteEach;
    var t := s.(bufferProcessing := true);
    WriteAllQuiet(o, t);
    WriteEachQuiet(o, t, s.buffer);
  }

  // ----- what is accepted

  predicate HasEnded(events: seq<Event>) { exists k :: 0 <= k < |events| && events[k].EEnd? }

  function Given(e: Event): seq<Chunk> {
    match e
    case EWrite(chunk) => [chunk]
    case EEnd(Some(chunk)) => [chunk]
    case _ => []
  }

  /** The chunks given to the stream before its end or with it. */
  function Written(events: seq<Event>): seq<Chunk> {
    if events == [] then []
    else
      var before := events[..|events| - 1];
      Written(before) + if HasEnded(before) then [] else Given(events[|events| - 1])
  }

  lemma WriteAccepts(o: Options, s: State, chunk: Chunk)
    ensures var r := Write(o, s, chunk);
            r.log.accepted == s.log.accepted + (if s.ended then [] else [chunk]) && r.ended == s.ended && r.corked == s.corked
  {
    hide DoWrite, Size;
    DoWriteQuiet(o, Booked(o, s, chunk), [chunk], Size(o, chunk), One(|s.log.accepted|));
  }

  lemma UncorkQuiet(o: Options, s: State)
    ensures Quiet(s.(corked := Uncork(o, s).corked), Uncork(o, s))
  {
    hide ClearBuffer;
    if s.corked > 0 && !s.bufferProcessing { ClearBufferQuiet(o, s.(corked := s.corked - 1)); }
  }

  lemma FinishQuiet(s: State)
    ensures var r := FinishMaybe(s); r.needDrain == s.needDrain && r.log.drains == s.log.drains && r.log.accepted == s.log.accepted && r.log.calls == s.log.calls && r.ended == s.ended
  {
  }

  lemma EndAccepts(o: Options, s: State, last: Option<Chunk>)
    requires Inv(o, s)
    ensures var r := End(o, s, last);
            r.log.accepted == s.log.accepted + (if s.ended then [] else Given(EEnd(last))) && r.ended
  {
    hide Write, Uncork, FinishMaybe, Core;
    EndInv(o, s, last);
    var t := if last.Some? then Write(o, s, last.value) else s;
    if last.Some? { WriteAccepts(o, s, last.value); }
    var u := if t.corked > 0 then Uncork(o, t.(corked := 1)) else t;
    if t.corked > 0 { UncorkQuiet(o, t.(corked := 1)); }
    FinishQuiet(u.(ending := true));
  }

  /** What a step adds to what is accepted. */
  predicate Accepts(s: State, e: Event, r: State) {
    r.log.accepted == s.log.accepted + (if s.ended then [] else Given(e)) && (r.ended <==> s.ended || e.EEnd?)
  }

  lemma SameBooks(s: State, e: Event, r: State)
    requires r.log.accepted == s.log.accepted && r.ended == s.ended && !e.EWrite? && !e.EEnd?
    ensures Accepts(s, e, r)
  {
    assert s.log.accepted + [] == s.log.accepted;
  }

  lemma StepAccepts(o: Options, s: State, e: Event)
    requires Inv(o, s) && Enabled(s, e)
    ensures Accepts(s, e, Step(o, s, e))
  {
    hide Inv, Write, Uncork, End, OnWrite, Drain, Callback, Finish, Accepts;
    match e
    case EWrite(chunk) => WriteBooks(o, s, chunk);
    case ECork => SameBooks(s, e, Cork(s));
    case EUncork =>
      UncorkQuiet(o, s);
      SameBooks(s, e, Uncork(o, s));
    case EEnd(last) => EndBooks(o, s, last);
    case EOnWrite =>
      OnWriteQuiet(o, s);
      SameBooks(s, e, OnWrite(o, s));
    case _ => PhaseAccepts(o, s, e);
  }

  lemma PhaseAccepts(o: Options, s: State, e: Event)
    requires Enabled(s, e) && (e.EDrain? || e.ECallback? || e.EFinish?)
    ensures Accepts(s, e, Step(o, s, e))
  {
    hide Drain, Callback, Finish, Accepts;
    match e
    case EDrain(k) =>
      DrainBooks(s, k);
      SameBooks(s, e, Drain(s, k));
    case ECallback(k) =>
      CallbackBooks(s, k);
      SameBooks(s, e, Callback(s, k));
    case EFinish(k) =>
      FinishBooks(s, k);
      SameBooks(s, e, Finish(s, k));
  }

  lemma WriteBooks(o: Options, s: State, chunk: Chunk)
    ensures Accepts(s, EWrite(chunk), Write(o, s, chunk))
  {
    hide Write;
    WriteAccepts(o, s, chunk);
  }

  lemma EndBooks(o: Options, s: State, last: Option<Chunk>)
    requires Inv(o, s)
    ensures Accepts(s, EEnd(last), End(o, s, last))
  {
    hide Inv, End;
    EndAccepts(o, s, last);
  }

  lemma DrainBooks(s: State, k: nat)
    requires k < |s.due|
    ensures var r := Drain(s, k); r.log.accepted == s.log.accepted && r.log.calls == s.log.calls && r.ended == s.ended
  {
    var t := s.(due := s.due[k := s.due[k].(drained := true)]);
    if !s.due[k].finished && s.length == 0 && s.needDrain {
      assert Drain(s, k) == t.(needDrain := false, log := s.log.(drains := s.log.drains + 1));
    } else {
      assert Drain(s, k) == t;
    }
  }

  lemma CallbackBooks(s: State, k: nat)
    requires k < |s.due| && s.due[k].callbacks != []
    ensures var r := Callback(s, k);
            && r.log.accepted == s.log.accepted && r.log.calls == s.log.calls && r.ended == s.ended
            && r.log.drains == s.log.drains && r.needDrain == s.needDrain
  {
  }

  lemma FinishBooks(s: State, k: nat)
    requires k < |s.due|
    ensures var r := Finish(s, k);
            && r.log.accepted == s.log.accepted && r.log.calls == s.log.calls && r.ended == s.ended
            && r.log.drains == s.log.drains && r.needDrain == s.needDrain
  {
    hide FinishMaybe;
    FinishQuiet(s.(due := s.due[..k] + s.due[k + 1..]));
  }

  lemma HasEndedNext(events: seq<Event>)
    requires events != []
    ensures HasEnded(events) <==> HasEnded(events[..|events| - 1]) || events[|events| - 1].EEnd?
  {
    var n := |events| - 1;
    if HasEnded(events[..n]) {
      var k :| 0 <= k < n && events[..n][k].EEnd?;
      assert events[k].EEnd?;
    }
    if events[n].EEnd? { assert HasEnded(events); }
    if HasEnded(events) && !events[n].EEnd? {
      var k :| 0 <= k < |events| && events[k].EEnd?;
      assert events[..n][k].EEnd?;
    }
  }

  /** Exactly the chunks given before the first `end` or with it are accepted, in the order they were given. */
  lemma {:induction false} AcceptedIs(o: Options, events: seq<Event>, s: State)
    requires Reaches(o, events, s)
    ensures s.log.accepted == Written(events) && (s.ended <==> HasEnded(events))
    decreases |events|
  {
    hide Step, Enabled, HasEnded;
    if events == [] {
      NoneEnded();
    } else {
      var n := |events| - 1;
      var t :| Reaches(o, events[..n], t) && Enabled(t, events[n]) && s == Step(o, t, events[n]);
      RunInv(o, events[..n], t);
      AcceptedIs(o, events[..n], t);
      StepAccepts(o, t, events[n]);
      HasEndedNext(events);
    }
  }

  lemma NoneEnded()
    ensures !HasEnded([])
  {
  }

  // ----- the calls of the sink

  predicate Singles(calls: seq<seq<Chunk>>) { forall k :: 0 <= k < |calls| ==> |calls[k]| == 1 }

  lemma OnWriteSingles(o: Options, s: State)
    requires !o.writev && Singles(s.log.calls)
    ensures Singles(OnWrite(o, s).log.calls)
    decreases if s.bufferProcessing then 0 else 1, 2, 0
  {
    hide ClearBuffer;
    var t := StateUpdate(s);
    if !t.bufferProcessing { ClearBufferSingles(o, t); }
  }

  lemma DoWriteSingles(o: Options, s: State, chunk: Chunk, len: int, cb: WriteCallback)
    requires !o.writev && Singles(s.log.calls)
    ensures Singles(DoWrite(o, s, [chunk], len, cb).log.calls)
    decreases if s.bufferProcessing then 0 else 1, 3, 0
  {
    hide OnWrite;
    OnWriteSingles(o, Begun(s, [chunk], len, cb));
  }

  lemma WriteEachSingles(o: Options, s: State, rest: seq<Request>)
    requires !o.writev && s.bufferProcessing && Singles(s.log.calls)
    ensures Singles(WriteEach(o, s, rest).log.calls)
    decreases 0, 4, |rest|
  {
    hide DoWrite, Singles;
    if rest != [] {
      DoWriteSingles(o, s, rest[0].chunk, Size(o, rest[0].chunk), One(rest[0].callback));
      WriteEachSingles(o, DoWrite(o, s, [rest[0].chunk], Size(o, rest[0].chunk), One(rest[0].callback)), rest[1..]);
    }
  }

  lemma ClearBufferSingles(o: Options, s: State)
    requires !o.writev && !s.bufferProcessing && Singles(s.log.calls)
    ensures Singles(ClearBuffer(o, s).log.calls)
    decreases 1, 1, 0
  {
    hide WriteAll, WriteEach, Singles;
    WriteEachSingles(o, s.(bufferProcessing := true), s.buffer);
  }

  lemma WriteSingles(o: Options, s: State, chunk: Chunk)
    requires !o.writev && Singles(s.log.calls)
    ensures Singles(Write(o, s, chunk).log.calls)
  {
    hide DoWrite, Size, Singles;
    DoWriteSingles(o, Booked(o, s, chunk), chunk, Size(o, chunk), One(|s.log.accepted|));
  }

  lemma UncorkSingles(o: Options, s: State)
    requires !o.writev && Singles(s.log.calls)
    ensures Singles(Uncork(o, s).log.calls)
  {
    hide ClearBuffer, Singles;
    if s.corked > 0 && !s.bufferProcessing { ClearBufferSingles(o, s.(corked := s.corked - 1)); }
  }

  lemma EndSingles(o: Options, s: State, last: Option<Chunk>)
    requires !o.writev && Singles(s.log.calls)
    ensures Singles(End(o, s, last).log.calls)
  {
    hide Write, Uncork, Singles, FinishMaybe;
    var t := if last.Some? then Write(o, s, last.value) else s;
    if last.Some? { WriteSingles(o, s, last.value); }
    var u := if t.corked > 0 then Uncork(o, t.(corked := 1)) else t;
    if t.corked > 0 { UncorkSingles(o, t.(corked := 1)); }
    FinishQuiet(u.(ending := true));
  }

  /** Without `_writev` the sink gets one chunk at a time. */
  lemma {:induction false} OneAtATime(o: Options, events: seq<Event>, s: State)
    requires Reaches(o, events, s) && !o.writev
    ensures Singles(s.log.calls)
    decreases |events|
  {
    hide Step, Enabled;
    if events != [] {
      var n := |events| - 1;
      var t :| Reaches(o, events[..n], t) && Enabled(t, events[n]) && s == Step(o, t, events[n]);
      OneAtATime(o, events[..n], t);
      StepSingles(o, t, events[n]);
    }
  }

  lemma StepSingles(o: Options, s: State, e: Event)
    requires Enabled(s, e) && !o.writev && Singles(s.log.calls)
    ensures Singles(Step(o, s, e).log.calls)
  {
    hide Write, Uncork, End, OnWrite, Singles;
    match e
    case EWrite(chunk) => WriteSingles(o, s, chunk);
    case EUncork => UncorkSingles(o, s);
    case EEnd(last) => EndSingles(o, s, last);
    case EOnWrite => OnWriteSingles(o, s);
    case _ =>
  }

  /** With `_writev` the last `uncork` of an idle stream hands over all that is buffered, if it is more than one chunk, in a single call. */
  lemma AllAtOnce(o: Options, s: State)
    requires Inv(o, s) && o.writev && s.corked == 1 && !s.writing && !s.ended && |s.buffer| > 1
    ensures Uncork(o, s).log.calls == s.log.calls + [Chunks(s.buffer)] && Uncork(o, s).buffer == []
  {
    hide Core, Chunks, Callbacks, ClearBuffer;
    UnfinishedIs(o, s);
    ClearedAtOnce(o, s.(corked := 0));
  }

  lemma ClearedAtOnce(o: Options, s: State)
    requires o.writev && !s.bufferProcessing && |s.buffer| > 1
    ensures ClearBuffer(o, s).log.calls == s.log.calls + [Chunks(s.buffer)] && ClearBuffer(o, s).buffer == []
  {
    hide Chunks, Callbacks, OnWrite;
    var t := s.(bufferProcessing := true);
    var given := Begun(t.(pendingcb := t.pendingcb + 1), Chunks(s.buffer), s.length, Group(Callbacks(s.buffer)));
    OnWriteProcessing(o, given);
    assert WriteAll(o, t).log.calls == given.log.calls;
    assert ClearBuffer(o, s) == WriteAll(o, t).(bufferProcessing := false);
  }

  lemma UnfinishedIs(o: Options, s: State)
    requires Inv(o, s) && !s.ended
    ensures !s.finished && !s.bufferProcessing
  {
    hide Core, Total;
    FinishedEnds(o, s);
  }

  lemma OnWriteProcessing(o: Options, s: State)
    requires s.bufferProcessing || s.corked > 0
    ensures OnWrite(o, s).log.calls == s.log.calls
  {
    hide ClearBuffer;
  }

  /** While a stream is corked its sink gets nothing: only the last `uncork` and `end` hand anything over. */
  lemma CorkHolds(o: Options, s: State, e: Event)
    requires s.corked > 0 && Enabled(s, e) && !e.EEnd? && !(e.EUncork? && s.corked == 1)
    ensures Step(o, s, e).log.calls == s.log.calls
  {
    hide Write, Uncork, OnWrite, Drain, Callback, Finish;
    match e
    case EWrite(chunk) => CorkedWrite(o, s, chunk);
    case ECork =>
    case EUncork => StillCorked(o, s);
    case EOnWrite => OnWriteProcessing(o, s);
    case EDrain(k) => DrainBooks(s, k);
    case ECallback(k) => CallbackBooks(s, k);
    case EFinish(k) => FinishBooks(s, k);
  }

  lemma CorkedWrite(o: Options, s: State, chunk: Chunk)
    requires s.corked > 0
    ensures Write(o, s, chunk).log.calls == s.log.calls
  {
    hide DoWrite, Size;
  }

  lemma StillCorked(o: Options, s: State)
    requires s.corked > 1
    ensures Uncork(o, s).log.calls == s.log.calls
  {
    hide ClearBuffer;
  }
}

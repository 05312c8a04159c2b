/** What a writable stream announces besides 'finish': 'drain' to writers that were told to wait, and 'prefinish'. */
module WritableSignals {
  import opened Wrappers
  import opened WritableSteps
  import opened WritableSafety
  import opened WritableRuns
  import opened WritableTheorems
  import opened WritableCalls

  // ----- step by step

  /** The writer is told to wait: the chunk is accepted, and what is not yet taken reaches the mark with it. */
  predicate Refused(o: Options, s: State, chunk: Chunk) { !s.ended && s.length + Size(o, chunk) >= o.highWaterMark }

  predicate Refuses(o: Options, s: State, e: Event) {
    match e
    case EWrite(chunk) => Refused(o, s, chunk)
    case EEnd(Some(chunk)) => Refused(o, s, chunk)
    case _ => false
  }

  /** 'drain' is emitted only if it is owed and nothing is left to be taken, and then it is owed no more. */
  predicate Emits(s: State, e: Event, r: State) {
    r.log.drains == s.log.drains + 1 && s.needDrain && s.length == 0 && !r.needDrain && Ordinary(s, e)
  }

  /** An `afterWrite` that did not find the stream ready to finish. */
  predicate Ordinary(s: State, e: Event) { e.EDrain? && e.k < |s.due| && !s.due[e.k].finished }

  lemma WriteOwes(o: Options, s: State, chunk: Chunk)
    ensures var r := Write(o, s, chunk);
            r.log.drains == s.log.drains && (r.needDrain <==> s.needDrain || Refused(o, s, chunk)) && r.prefinished == s.prefinished
  {
    hide DoWrite, Size;
    var t := Booked(o, s, chunk);
    DoWriteQuiet(o, t, [chunk], Size(o, chunk), One(|s.log.accepted|));
  }

  lemma EndOwes(o: Options, s: State, last: Option<Chunk>)
    ensures var r := End(o, s, last);
            r.log.drains == s.log.drains && (r.needDrain <==> s.needDrain || Refuses(o, s, EEnd(last)))
  {
    hide Write, Uncork, Refused, FinishMaybe;
    var t := if last.Some? then Write(o, s, last.value) else s;
    if last.Some? { WriteOwes(o, s, last.value); }
    var u := if t.corked > 0 then Uncork(o, t.(corked := 1)) else t;
    if t.corked > 0 { UncorkQuiet(o, t.(corked := 1)); }
    FinishQuiet(u.(ending := true));
  }

  /** A step emits 'drain' and ends the debt, or the debt goes on and a refused write starts it. */
  predicate Owes(o: Options, s: State, e: Event, r: State) {
    if r.log.drains == s.log.drains then r.needDrain <==> s.needDrain || Refuses(o, s, e) else Emits(s, e, r) && !Refuses(o, s, e)
  }

  lemma StepOwes(o: Options, s: State, e: Event)
    requires Enabled(s, e)
    ensures Owes(o, s, e, Step(o, s, e))
  {
    hide Write, Uncork, End, OnWrite, Drain, Callback, Finish, Owes;
    match e
    case EWrite(chunk) => WriteDebt(o, s, chunk);
    case ECork => SameDebt(o, s, e, Cork(s));
    case EUncork =>
      UncorkQuiet(o, s);
      SameDebt(o, s, e, Uncork(o, s));
    case EEnd(last) => EndDebt(o, s, last);
    case EOnWrite =>
      OnWriteQuiet(o, s);
      SameDebt(o, s, e, OnWrite(o, s));
    case _ => PhaseOwes(o, s, e);
  }

  lemma SameDebt(o: Options, s: State, e: Event, r: State)
    requires r.log.drains == s.log.drains && r.needDrain == s.needDrain && !e.EWrite? && !e.EEnd?
    ensures Owes(o, s, e, r)
  {
  }

  lemma WriteDebt(o: Options, s: State, chunk: Chunk)
    ensures Owes(o, s, EWrite(chunk), Write(o, s, chunk))
  {
    hide Write, Refused;
    WriteOwes(o, s, chunk);
  }

  lemma EndDebt(o: Options, s: State, last: Option<Chunk>)
    ensures Owes(o, s, EEnd(last), End(o, s, last))
  {
    hide End, Refuses;
    EndOwes(o, s, last);
  }

  lemma PhaseOwes(o: Options, s: State, e: Event)
    requires Enabled(s, e) && (e.EDrain? || e.ECallback? || e.EFinish?)
    ensures Owes(o, s, e, Step(o, s, e))
  {
    hide Drain, Callback, Finish, Owes;
    match e
    case EDrain(k) => DrainDebt(o, s, k);
    case ECallback(k) =>
      CallbackBooks(s, k);
      SameDebt(o, s, e, Callback(s, k));
    case EFinish(k) =>
      FinishBooks(s, k);
      SameDebt(o, s, e, Finish(s, k));
  }

  lemma DrainDebt(o: Options, s: State, k: nat)
    requires k < |s.due|
    ensures Owes(o, s, EDrain(k), Drain(s, k))
  {
    var t := s.(due := s.due[k := s.due[k].(drained := true)]);
    if !s.due[k].finished && s.length == 0 && s.needDrain {
      assert Drain(s, k) == t.(needDrain := false, log := s.log.(drains := s.log.drains + 1));
    } else {
      assert Drain(s, k) == t;
    }
  }

  // ----- 'drain' over whole runs

  /** A write was refused when `drains` times 'drain' had been emitted. */
  ghost predicate Waits(o: Options, events: seq<Event>, drains: nat) {
    exists k, t :: 0 <= k < |events| && WaitsAt(o, events, k, t) && t.log.drains == drains
  }

  ghost predicate WaitsAt(o: Options, events: seq<Event>, k: nat, t: State)
    requires k < |events|
  {
    Reaches(o, events[..k], t) && Refuses(o, t, events[k])
  }

  lemma {:induction false} DrainsGrow(o: Options, events: seq<Event>, s: State, k: nat, t: State)
    requires Reaches(o, events, s) && k <= |events| && Reaches(o, events[..k], t)
    ensures t.log.drains <= s.log.drains
    decreases |events|
  {
    hide Step, Enabled, Refuses;
    if k == |events| {
      assert events[..k] == events;
      OneState(o, events, s, t);
    } else {
      var n := |events| - 1;
      var u :| Reaches(o, events[..n], u) && Enabled(u, events[n]) && s == Step(o, u, events[n]);
      assert events[..n][..k] == events[..k];
      DrainsGrow(o, events[..n], u, k, t);
      StepOwes(o, u, events[n]);
    }
  }

  /** 'drain' is owed exactly if a write was refused since it was last emitted. */
  lemma {:induction false} DrainOwed(o: Options, events: seq<Event>, s: State)
    requires Reaches(o, events, s)
    ensures s.needDrain <==> Waits(o, events, s.log.drains)
    decreases |events|
  {
    hide Step, Enabled, Refuses;
    if events != [] {
      var n := |events| - 1;
      var before, e := events[..n], events[n];
      var t :| Reaches(o, before, t) && Enabled(t, e) && s == Step(o, t, e);
      StepOwes(o, t, e);
      DrainOwed(o, before, t);
      WaitsNext(o, events, t, s.log.drains);
      if Waits(o, before, t.log.drains + 1) {
        var k, u :| 0 <= k < |before| && WaitsAt(o, before, k, u) && u.log.drains == t.log.drains + 1;
        DrainsGrow(o, before, t, k, u);
      }
    }
  }

  lemma WaitsNext(o: Options, events: seq<Event>, t: State, drains: nat)
    requires events != [] && Reaches(o, events[..|events| - 1], t)
    ensures Waits(o, events, drains) <==> Waits(o, events[..|events| - 1], drains) || (Refuses(o, t, events[|events| - 1]) && t.log.drains == drains)
  {
    hide Refuses, Reaches;
    var n := |events| - 1;
    var before := events[..n];
    if k, u :| 0 <= k < n && WaitsAt(o, before, k, u) && u.log.drains == drains {
      assert before[..k] == events[..k] && WaitsAt(o, events, k, u);
    }
    if Refuses(o, t, events[n]) { assert WaitsAt(o, events, n, t); }
    if k, u :| 0 <= k < |events| && WaitsAt(o, events, k, u) && u.log.drains == drains {
      if k < n {
        assert before[..k] == events[..k] && WaitsAt(o, before, k, u);
      } else {
        OneState(o, before, t, u);
      }
    }
  }

  /** 'drain' is only ever emitted if a write was refused since the last one, nothing is left to be taken, and the stream was not about to finish. */
  lemma DrainOnlyIfOwed(o: Options, events: seq<Event>, s: State, e: Event)
    requires Reaches(o, events, s) && Enabled(s, e)
    ensures var r := Step(o, s, e);
            r.log.drains == s.log.drains || (r.log.drains == s.log.drains + 1 && Waits(o, events, s.log.drains) && s.length == 0 && Ordinary(s, e))
  {
    hide Step, Enabled, Reaches, Waits, Refuses;
    StepOwes(o, s, e);
    DrainOwed(o, events, s);
  }

  /** Every writer that was told to wait is woken: once a stream neither ended nor corked is quiescent, 'drain' has come since. */
  lemma WriterWoken(o: Options, events: seq<Event>, s: State, k: nat, t: State)
    requires Reaches(o, events, s) && Quiescent(s) && !s.ended && s.corked == 0
    requires k < |events| && WaitsAt(o, events, k, t)
    ensures t.log.drains < s.log.drains
    ensures s.buffer == [] && s.length == 0 && Flat(s.log.calls) == s.log.accepted
  {
    hide Waits, Refuses, Flat;
    AllTaken(o, events, s);
    DrainOwed(o, events, s);
    DrainsGrow(o, events, s, k, t);
    WaitsIs(o, events, k, t);
  }

  lemma WaitsIs(o: Options, events: seq<Event>, k: nat, t: State)
    requires k < |events| && WaitsAt(o, events, k, t)
    ensures Waits(o, events, t.log.drains)
  {
    hide WaitsAt;
  }

  // ----- 'prefinish'

  /** 'prefinish' is not missing where nothing is left that could emit it. */
  predicate Announced(s: State) {
    && (s.prefinished ==> s.ending)
    && (s.finished ==> s.prefinished)
    && (s.ending && !s.writing && s.due == [] && s.length == 0 ==> s.prefinished)
  }

  lemma UncorkBusy(o: Options, s: State)
    requires Inv(o, s)
    ensures var r := Uncork(o, s);
            && r.ending == s.ending && r.finished == s.finished
            && (r.writing || r.due != [] || (r.writing == s.writing && r.due == s.due && r.length == s.length))
  {
    hide ClearBuffer, Total, Core, Chunks, Callbacks;
    var t := s.(corked := if s.corked == 0 then 0 else s.corked - 1);
    CountersIrrelevant(o, s, s.buffer, multiset{}, 0, t.corked, false, 0);
    if !t.writing && t.buffer != [] { ClearBufferCore(o, t, multiset{}, 0); }
  }

  lemma EndAnnounces(o: Options, s: State, last: Option<Chunk>)
    requires Inv(o, s) && Announced(s)
    ensures var r := End(o, s, last);
            && Announced(r) && (s.prefinished ==> r.prefinished)
            && (r.prefinished && !s.prefinished ==> r.ending && !r.writing && r.length == 0)
  {
    hide Write, Uncork, Inv, FinishMaybe, Announced;
    var t := if last.Some? then Write(o, s, last.value) else s;
    if last.Some? {
      WriteInv(o, s, last.value);
      WriteOwes(o, s, last.value);
      WriteUnfinished(o, s, last.value);
    }
    var u := if t.corked > 0 then Uncork(o, t.(corked := 1)) else t;
    if t.corked > 0 {
      RecorkInv(o, t);
      Recorked(t);
      UncorkAnnounces(o, t.(corked := 1));
    }
    if !u.ending && !u.finished { FinishAnnounces(u); }
  }

  lemma Recorked(s: State)
    requires Announced(s)
    ensures Announced(s.(corked := 1))
  {
  }

  lemma UncorkAnnounces(o: Options, s: State)
    requires Inv(o, s) && Announced(s)
    ensures Announced(Uncork(o, s)) && Uncork(o, s).prefinished == s.prefinished
  {
    hide Uncork, Inv;
    UncorkBusy(o, s);
    UncorkQuiet(o, s);
  }

  lemma FinishAnnounces(s: State)
    requires Announced(s) && !s.ending && !s.finished
    ensures var r := FinishMaybe(s.(ending := true)).(ended := true);
            Announced(r) && (r.prefinished ==> r.ending && !r.writing && r.length == 0) && !s.prefinished
  {
  }

  lemma WriteUnfinished(o: Options, s: State, chunk: Chunk)
    requires Inv(o, s) && Announced(s)
    ensures Announced(Write(o, s, chunk)) && Write(o, s, chunk).finished == s.finished
  {
    hide Core, Write, Total;
    WriteInv(o, s, chunk);
    WriteOwes(o, s, chunk);
    FinishedEnds(o, s);
    FinishedEnds(o, Write(o, s, chunk));
    if !s.ended { NotEnding(o, s); }
  }

  lemma OnWriteAnnounces(o: Options, s: State)
    requires Inv(o, s) && Announced(s) && s.writing
    ensures var r := OnWrite(o, s);
            Announced(r) && r.prefinished == s.prefinished
  {
    hide Core, OnWrite, Total;
    OnWriteQuiet(o, s);
    OnWriteKeeps(o, s);
    OnWriteDue(o, s);
  }

  lemma OnWriteDue(o: Options, s: State)
    requires Inv(o, s) && s.writing
    ensures OnWrite(o, s).due != [] && OnWrite(o, s).finished == s.finished
  {
    hide Core, ClearBuffer, Total, Chunks, Callbacks, InFlight, Extra;
    var t := StateUpdate(s);
    Settle(o, s, s.buffer, multiset{}, 0);
    if t.buffer != [] { ClearBufferCore(o, t, multiset{} + multiset(InFlight(s.writecb)), 0 + Extra(s.writecb)); }
  }

  lemma LastAnnounces(s: State, k: nat)
    requires Announced(s) && k < |s.due|
    ensures var r := Finish(s, k);
            && Announced(r) && (s.prefinished ==> r.prefinished)
            && (r.prefinished && !s.prefinished ==> r.ending && !r.writing && r.length == 0)
  {
  }

  /** Every step keeps that, and one that emits 'prefinish' leaves nothing to be taken. */
  lemma StepAnnounces(o: Options, s: State, e: Event)
    requires Inv(o, s) && Announced(s) && Enabled(s, e)
    ensures var r := Step(o, s, e);
            && Announced(r) && (s.prefinished ==> r.prefinished)
            && (r.prefinished && !s.prefinished ==> r.ending && !r.writing && r.length == 0)
  {
    hide Inv, Write, Uncork, End, OnWrite, Finish;
    match e
    case EWrite(chunk) =>
      WriteUnfinished(o, s, chunk);
      WriteOwes(o, s, chunk);
    case EUncork => UncorkAnnounces(o, s);
    case EEnd(last) => EndAnnounces(o, s, last);
    case EOnWrite => OnWriteAnnounces(o, s);
    case EFinish(k) => LastAnnounces(s, k);
    case _ =>
  }

  lemma {:induction false} RunAnnounces(o: Options, events: seq<Event>, s: State)
    requires Reaches(o, events, s)
    ensures Announced(s)
  {
    hide Step, Enabled, Announced, Inv;
    if events == [] {
      FirstAnnounced();
    } else {
      var n := |events| - 1;
      var t :| Reaches(o, events[..n], t) && Enabled(t, events[n]) && s == Step(o, t, events[n]);
      RunInv(o, events[..n], t);
      RunAnnounces(o, events[..n], t);
      StepAnnounces(o, t, events[n]);
    }
  }

  lemma FirstAnnounced()
    ensures Announced(Initial())
  {
  }

  /**
   * 'prefinish' is emitted at most once; when it is, the stream has been ended and only empty chunks are left to be taken.
   * It comes before 'finish', and it does come in every ended stream: none that is quiescent and not corked is without it.
   */
  lemma Prefinished(o: Options, events: seq<Event>, s: State, e: Event)
    requires Reaches(o, events, s) && Enabled(s, e)
    ensures var r := Step(o, s, e);
            && (s.prefinished ==> r.prefinished)
            && (r.prefinished && !s.prefinished ==> r.ending && !r.writing && Total(o, r.buffer) == 0)
    ensures s.finished ==> s.prefinished
    ensures Quiescent(s) && s.ended && s.corked == 0 ==> s.prefinished
  {
    hide Step, Enabled, Inv, Total, Reaches;
    RunInv(o, events, s);
    RunAnnounces(o, events, s);
    StepAnnounces(o, s, e);
    StepInv(o, s, e);
    IdleLength(o, s);
    IdleLength(o, Step(o, s, e));
    if Quiescent(s) && s.ended && s.corked == 0 { FinishedUnlessLeft(o, events, s); }
  }

  lemma IdleLength(o: Options, s: State)
    requires Inv(o, s)
    ensures !s.writing ==> s.length == Total(o, s.buffer)
    ensures s.ended == s.ending
  {
    hide Total, Flat, AllCallbacks, Promised, Groups, Callbacks, Chunks;
  }
}

/** What the invariant says about whole runs of a writable stream. */
module WritableTheorems {
  import opened Wrappers
  import opened WritableSteps
  import opened WritableSafety
  import opened WritableRuns

  lemma {:induction false} AllOnce(n: nat, c: nat)
    ensures AllCallbacks(n)[c] == if c < n then 1 else 0
    ensures |AllCallbacks(n)| == n
  {
    if n > 0 { AllOnce(n - 1, c); }
  }

  /** Chunks reach the sink once each, in the order they were written, and `length` counts what has not been taken yet. */
  lemma SentInOrder(o: Options, events: seq<Event>, s: State)
    requires Reaches(o, events, s)
    ensures Flat(s.log.calls) + Chunks(s.buffer) == s.log.accepted
    ensures s.length == InFlightSize(o, s) + Total(o, s.buffer)
  {
    hide Promised, Groups, AllCallbacks, Total, Flat, Chunks, Callbacks;
    RunInv(o, events, s);
  }

  /** No callback is called twice, and none that does not belong to a write. */
  lemma CalledOnce(o: Options, events: seq<Event>, s: State, c: nat)
    requires Reaches(o, events, s)
    ensures multiset(s.log.called)[c] <= if c < |s.log.accepted| then 1 else 0
  {
    hide Promised, Groups, AllCallbacks, Total, Flat, Chunks, Callbacks;
    RunInv(o, events, s);
    AllOnce(|s.log.accepted|, c);
    assert multiset(s.log.called)[c] <= (multiset(s.log.called) + Promised(s.due) + multiset(InFlight(s.writecb)) + multiset(Callbacks(s.buffer)) + multiset{})[c];
  }

  /** `pendingcb` counts the writes whose callback has not been called, and one more for each `_writev` that has not begun calling its own. */
  lemma PendingCounts(o: Options, events: seq<Event>, s: State)
    requires Reaches(o, events, s)
    ensures s.pendingcb == |s.log.accepted| - |s.log.called| + Groups(s.due) + Extra(s.writecb)
  {
    hide Promised, Groups, AllCallbacks, Total, Flat, Chunks, Callbacks;
    RunInv(o, events, s);
    AllOnce(|s.log.accepted|, 0);
    assert |multiset(s.log.called) + Promised(s.due) + multiset(InFlight(s.writecb)) + multiset(Callbacks(s.buffer)) + multiset{}| ==
           |s.log.called| + |Promised(s.due)| + |InFlight(s.writecb)| + |s.buffer|;
  }

  /** 'finish' is emitted at most once, and only after the end was announced, everything was sent and every callback was called. */
  lemma FinishedLast(o: Options, events: seq<Event>, s: State)
    requires Reaches(o, events, s)
    ensures s.log.finishes <= 1
    ensures s.log.finishes == 1 ==> s.ending && Flat(s.log.calls) == s.log.accepted && s.length == 0
    ensures s.log.finishes == 1 ==> multiset(s.log.called) == AllCallbacks(|s.log.accepted|)
  {
    hide AllCallbacks, Flat;
    RunInv(o, events, s);
    FinishedEnds(o, s);
    if s.finished {
      assert |Promised(s.due)| == 0 && s.pendingcb == 0;
      assert Promised(s.due) == multiset{};
    }
  }

  /** Nothing is going on: the sink is idle and no `afterWrite` is due. */
  predicate Quiescent(s: State) { !s.writing && s.due == [] }

  /** In a quiescent stream that has been ended and is not corked, 'finish' has been emitted exactly if the buffer is empty. */
  lemma FinishedUnlessLeft(o: Options, events: seq<Event>, s: State)
    requires Reaches(o, events, s) && Quiescent(s) && s.ended && s.corked == 0
    ensures s.log.finishes == 1 <==> s.buffer == []
    ensures Total(o, s.buffer) == 0
  {
    hide AllCallbacks, Flat, Total;
    RunInv(o, events, s);
    FinishedEnds(o, s);
    TotalNothing(o);
  }

  lemma TotalNothing(o: Options)
    ensures Total(o, []) == 0
  {
  }

  lemma TotalPositive(o: Options, b: seq<Request>)
    requires b != [] && Size(o, b[0].chunk) > 0
    ensures Total(o, b) > 0
  {
  }

  /** With no empty chunk written, or in object mode, a quiescent, ended and uncorked stream has finished. */
  lemma NonEmptyFinishes(o: Options, events: seq<Event>, s: State)
    requires Reaches(o, events, s) && Quiescent(s) && s.ended && s.corked == 0
    requires o.objectMode || forall c :: c in s.log.accepted ==> c != []
    ensures s.log.finishes == 1
  {
    hide Total, Flat;
    FinishedUnlessLeft(o, events, s);
    SentInOrder(o, events, s);
    if s.buffer != [] {
      assert Chunks(s.buffer)[0] == s.buffer[0].chunk;
      assert s.log.accepted[|Flat(s.log.calls)|] == s.buffer[0].chunk;
      assert s.buffer[0].chunk in s.log.accepted;
      TotalPositive(o, s.buffer);
    }
  }

  /** A completed write leaves the buffer unserved exactly if the stream is corked, or it is ending and only empty chunks are left. */
  lemma LeftBehind(o: Options, events: seq<Event>, s: State)
    requires Reaches(o, events, s) && s.writing
    ensures var r := OnWrite(o, s);
            !r.writing && r.buffer != [] <==> s.buffer != [] && (s.corked > 0 || (s.ending && Total(o, s.buffer) == 0))
  {
    hide AllCallbacks, Flat, Total, ClearBuffer, Promised, Groups, Chunks, Callbacks;
    RunInv(o, events, s);
    var t := StateUpdate(s);
    FinishedEnds(o, s);
    Settle(o, s, s.buffer, multiset{}, 0);
    var held, extra := multiset{} + multiset(InFlight(s.writecb)), 0 + Extra(s.writecb);
    LengthIs(o, t, s.buffer, held, extra);
    if !NeedFinish(t) && t.corked == 0 && t.buffer != [] {
      ClearBufferCore(o, t, held, extra);
    }
  }

  /** Requests are left in the buffer of an ended stream that is not corked, with nothing to work them off. */
  predicate Left(s: State) { !s.writing && s.ending && s.corked == 0 && s.buffer != [] }

  /** A completion in an ended stream that is not corked finds only empty chunks in the buffer. */
  predicate LeavesBehind(o: Options, s: State, e: Event) {
    e.EOnWrite? && s.writing && s.ending && s.corked == 0 && s.buffer != [] && Total(o, s.buffer) == 0
  }

  lemma LeftStep(o: Options, events: seq<Event>, s: State, e: Event)
    requires Reaches(o, events, s) && Enabled(s, e)
    ensures Left(Step(o, s, e)) <==> LeavesBehind(o, s, e) || (Left(s) && !e.ECork?)
  {
    hide Total, Write, Uncork, End, OnWrite, Core;
    RunInv(o, events, s);
    match e
    case EWrite(chunk) =>
      WriteInv(o, s, chunk);
      if !s.ended { NotEnding(o, s); }
    case EUncork =>
      UncorkInv(o, s);
      UncorkNot(o, s);
    case EEnd(last) => EndInv(o, s, last);
    case EOnWrite =>
      LeftBehind(o, events, s);
      OnWriteKeeps(o, s);
    case _ => SmallStep(o, s, e);
  }

  lemma NotEnding(o: Options, s: State)
    requires Inv(o, s) && !s.ended
    ensures !s.ending
  {
    hide Core, Total;
  }

  lemma UncorkNot(o: Options, s: State)
    ensures s.corked != 1 ==> Uncork(o, s).corked == (if s.corked == 0 then 0 else s.corked - 1) && (s.corked == 0 ==> Uncork(o, s) == s)
  {
    hide ClearBuffer;
  }

  lemma OnWriteKeeps(o: Options, s: State)
    requires Inv(o, s) && s.writing
    ensures OnWrite(o, s).ending == s.ending && OnWrite(o, s).corked == s.corked
  {
    hide AllCallbacks, Flat, Total, ClearBuffer, Promised, Groups, Chunks, Callbacks;
    var t := StateUpdate(s);
    Settle(o, s, s.buffer, multiset{}, 0);
    if !NeedFinish(t) && t.corked == 0 && t.buffer != [] {
      ClearBufferCore(o, t, multiset{} + multiset(InFlight(s.writecb)), 0 + Extra(s.writecb));
    }
  }

  lemma SmallStep(o: Options, s: State, e: Event)
    requires Enabled(s, e) && (e.ECork? || e.EDrain? || e.ECallback? || e.EFinish?)
    ensures Left(Step(o, s, e)) <==> Left(s) && !e.ECork?
  {
    hide Drain, Callback, Finish;
    match e
    case ECork =>
    case EDrain(k) => DrainKeeps(s, k);
    case ECallback(k) => CallbackKeeps(s, k);
    case EFinish(k) => FinishKeeps(s, k);
  }

  lemma DrainKeeps(s: State, k: nat)
    requires k < |s.due|
    ensures Left(Drain(s, k)) == Left(s)
  {
  }

  lemma CallbackKeeps(s: State, k: nat)
    requires k < |s.due| && s.due[k].callbacks != []
    ensures Left(Callback(s, k)) == Left(s)
  {
  }

  lemma FinishKeeps(s: State, k: nat)
    requires k < |s.due|
    ensures Left(Finish(s, k)) == Left(s)
  {
  }

  /** At some step requests were left behind, and the stream was not corked afterwards. */
  ghost predicate LeftAt(o: Options, events: seq<Event>, k: nat, t: State)
    requires k < |events|
  {
    Reaches(o, events[..k], t) && LeavesBehind(o, t, events[k]) && forall j :: k < j < |events| ==> !events[j].ECork?
  }

  /** Exactly the runs in which a completion left empty chunks behind, with no `cork` since, end with requests left. */
  lemma {:induction false} LeftRun(o: Options, events: seq<Event>, s: State)
    requires Reaches(o, events, s)
    ensures Left(s) <==> exists k, t :: 0 <= k < |events| && LeftAt(o, events, k, t)
    decreases |events|
  {
    hide Step, Enabled, LeavesBehind;
    if events != [] {
      var n := |events| - 1;
      var before, e := events[..n], events[n];
      var t :| Reaches(o, before, t) && Enabled(t, e) && s == Step(o, t, e);
      LeftRun(o, before, t);
      LeftStep(o, before, t, e);
      if LeavesBehind(o, t, e) {
        assert LeftAt(o, events, n, t);
      } else if Left(s) {
        var k, u :| 0 <= k < |before| && LeftAt(o, before, k, u);
        assert before[..k] == events[..k] && LeftAt(o, events, k, u);
      }
      if k, u :| 0 <= k < |events| && LeftAt(o, events, k, u) {
        if k < n {
          assert before[..k] == events[..k] && !events[n].ECork? && LeftAt(o, before, k, u);
        } else {
          OneState(o, before, t, u);
        }
      }
    }
  }

  lemma {:induction false} OneState(o: Options, events: seq<Event>, s: State, t: State)
    requires Reaches(o, events, s) && Reaches(o, events, t)
    ensures s == t
    decreases |events|
  {
    hide Step, Enabled;
    if events != [] {
      var n := |events| - 1;
      var a :| Reaches(o, events[..n], a) && Enabled(a, events[n]) && s == Step(o, a, events[n]);
      var b :| Reaches(o, events[..n], b) && Enabled(b, events[n]) && t == Step(o, b, events[n]);
      OneState(o, events[..n], a, b);
    }
  }

  /** Which runs do not finish: a quiescent stream that has been ended and is not corked has not emitted 'finish' exactly if
      some completion found nothing but empty chunks in the buffer, and the stream was not corked since. */
  lemma UnfinishedRuns(o: Options, events: seq<Event>, s: State)
    requires Reaches(o, events, s) && Quiescent(s) && s.ended && s.corked == 0
    ensures s.log.finishes == 0 <==> exists k, t :: 0 <= k < |events| && LeftAt(o, events, k, t)
  {
    hide LeftAt, Total, Core;
    RunInv(o, events, s);
    FinishedUnlessLeft(o, events, s);
    FinishedLast(o, events, s);
    LeftRun(o, events, s);
  }

  /** A quiescent stream neither ended nor corked has handed everything to the sink. */
  lemma AllTaken(o: Options, events: seq<Event>, s: State)
    requires Reaches(o, events, s) && Quiescent(s) && !s.ended && s.corked == 0
    ensures s.buffer == [] && s.length == 0 && !s.needDrain
    ensures Flat(s.log.calls) == s.log.accepted
  {
    hide AllCallbacks, Flat, Total;
    RunInv(o, events, s);
    FinishedEnds(o, s);
  }

  // ----- the empty chunk

  const LAZY: Options := Options(16384, false, false, n => false)

  /** While the byte is with the sink, `n` steps into the run. */
  function Busy(n: nat): State {
    State(1, true, 0, false, false, One(0), 1, if n < 2 then [] else [Request([], 1)], if n < 2 then 1 else 2, false, n >= 3, n >= 3, false, false,
          [], Log(if n < 2 then [[1]] else [[1], []], [[[1]]], [], 0, 0))
  }

  /** After the sink is done. */
  function Stuck(n: nat): State {
    State(0, false, 0, false, false, NoCallback, 0, [Request([], 1)], if n < 6 then 2 else 1, false, true, true, false, n >= 7,
          if n >= 7 then [] else [AfterWrite(true, n >= 5, false, if n < 6 then [0] else [])], Log([[1], []], [[[1]]], if n < 6 then [] else [0], 0, 0))
  }

  /** The states of a run: a byte, an empty chunk, the end, and then the sink and the callbacks. */
  function Sticky(n: nat): State { if n == 0 then Initial() else if n <= 3 then Busy(n) else Stuck(n) }

  const STICKING: seq<Event> := [EWrite([1]), EWrite([]), EEnd(None), EOnWrite, EDrain(0), ECallback(0), EFinish(0)]

  lemma Sticking0()
    ensures Enabled(Sticky(0), STICKING[0]) && Step(LAZY, Sticky(0), STICKING[0]) == Sticky(1)
  {
  }

  lemma Sticking1()
    ensures Enabled(Sticky(1), STICKING[1]) && Step(LAZY, Sticky(1), STICKING[1]) == Sticky(2)
  {
  }

  lemma Sticking2()
    ensures Enabled(Sticky(2), STICKING[2]) && Step(LAZY, Sticky(2), STICKING[2]) == Sticky(3)
  {
  }

  lemma Sticking3()
    ensures Enabled(Sticky(3), STICKING[3]) && Step(LAZY, Sticky(3), STICKING[3]) == Sticky(4)
  {
  }

  lemma Sticking4()
    ensures Enabled(Sticky(4), STICKING[4]) && Step(LAZY, Sticky(4), STICKING[4]) == Sticky(5)
  {
  }

  lemma Sticking5()
    ensures Enabled(Sticky(5), STICKING[5]) && Step(LAZY, Sticky(5), STICKING[5]) == Sticky(6)
  {
    var cs: seq<nat> := [0];
    assert cs[1..] == [];
    assert Callback(Sticky(5), 0).due == Sticky(6).due;
  }

  lemma Sticking6()
    ensures Enabled(Sticky(6), STICKING[6]) && Step(LAZY, Sticky(6), STICKING[6]) == Sticky(7)
  {
  }

  /**
   * One byte is written, then an empty chunk while the sink is busy, then the stream is ended. When the sink is done the
   * stream counts as ready to finish, so the buffer is not worked off; and as the empty chunk's callback is pending,
   * it does not finish either.
   */
  lemma EmptyChunkSticks() returns (s: State)
    ensures Reaches(LAZY, STICKING, s)
    ensures Quiescent(s) && s.ended && s.corked == 0 && s.log.finishes == 0 && s.buffer == [Request([], 1)] && s.log.called == [0]
  {
    s := Sticky(7);
    StickingRun(7);
    assert STICKING[..7] == STICKING;
  }

  lemma {:induction false} StickingRun(n: nat)
    requires n <= 7
    ensures Reaches(LAZY, STICKING[..n], Sticky(n))
  {
    hide Step, Busy, Stuck, Enabled;
    if n > 0 {
      StickingRun(n - 1);
      Sticking0();
      Sticking1();
      Sticking2();
      Sticking3();
      Sticking4();
      Sticking5();
      Sticking6();
      Extends(LAZY, STICKING[..n - 1], Sticky(n - 1), STICKING[n - 1]);
      assert STICKING[..n - 1] + [STICKING[n - 1]] == STICKING[..n];
    }
  }

  lemma Extends(o: Options, events: seq<Event>, s: State, e: Event)
    requires Reaches(o, events, s) && Enabled(s, e)
    ensures Reaches(o, events + [e], Step(o, s, e))
  {
    hide Step;
    var all := events + [e];
    assert all[..|all| - 1] == events;
  }

  /** Once stuck, no step but another `cork` and `uncork` moves the stream on. */
  lemma StaysStuck(o: Options, s: State, e: Event)
    requires Quiescent(s) && s.ended && s.ending && s.corked == 0 && s.buffer != [] && Enabled(s, e)
    ensures e.ECork? || Step(o, s, e) == s
  {
  }
}

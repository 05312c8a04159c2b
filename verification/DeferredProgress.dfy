/** The progress list of a deferred: `notify` until it is settled, and nothing after that. */
module DeferredProgress {
  import opened Sequences
  import opened Wrappers
  import opened CallbacksList
  import Cursor = CallbacksCursor
  import Lists = CallbacksTheorems
  import Firings = CallbacksFirings
  import opened DeferredSteps
  import opened DeferredSafety
  import opened DeferredTheorems

  /** What the steps of a deferred do to its progress list, as long as it is pending. */
  function OnProgress<A>(e: Event<A>): seq<Lists.Event<Handler, A>> {
    match e
    case ENotify(args) => [Lists.EFireWith(args)]
    case EProgress(ids) => [Lists.EAdd(Users(ids))]
    case EProgressReturn => [Lists.EReturn]
    case _ => []
  }

  function ProgressRun<A>(events: seq<Event<A>>): seq<Lists.Event<Handler, A>> {
    if events == [] then [] else ProgressRun(events[..|events| - 1]) + OnProgress(events[|events| - 1])
  }

  lemma PendingStep<A>(d: Deferred<A>, e: Event<A>)
    requires Inv(d) && Enabled(d, e) && Step(d, e).state.Pending?
    ensures d.state.Pending?
    ensures var run := OnProgress(e);
            if run == [] then Step(d, e).progress == d.progress
            else |run| == 1 && Lists.Enabled(d.progress, run[0]) && Step(d, e).progress == Lists.Step(MEMORY, d.progress, run[0])
  {
    hide Settling, Lost, Settle, Return, Add, FireWith;
    match e
    case ESettle(side, args) => SettleInv(d, side, args);
    case ERegister(side, ids) => RegisterKeeps(d, side, ids);
    case _ =>
  }

  /** While a deferred is pending its progress list is a list of its own, run by `notify`, `progress` and the returns of its callbacks. */
  lemma {:induction false} ProgressRuns<A(!new)>(events: seq<Event<A>>, d: Deferred<A>)
    requires Reaches(events, d) && d.state.Pending?
    ensures Lists.Reaches(MEMORY, ProgressRun(events), d.progress)
    decreases |events|
  {
    hide Step, Enabled, Inv, Lists.Step, Lists.Enabled, OnProgress;
    if events != [] {
      var n := |events| - 1;
      var b :| Reaches(events[..n], b) && Enabled(b, events[n]) && d == Step(b, events[n]);
      RunInv(events[..n], b);
      PendingStep(b, events[n]);
      ProgressRuns(events[..n], b);
      var before, run := ProgressRun(events[..n]), OnProgress(events[n]);
      assert ProgressRun(events) == before + run;
      if run == [] {
        assert before + run == before;
      } else {
        assert run == [run[0]];
        Extends(before, b.progress, run[0]);
      }
    }
  }

  lemma Extends<A(!new)>(run: seq<Lists.Event<Handler, A>>, c: Callbacks<Handler, A>, e: Lists.Event<Handler, A>)
    requires Lists.Reaches(MEMORY, run, c) && Lists.Enabled(c, e)
    ensures Lists.Reaches(MEMORY, run + [e], Lists.Step(MEMORY, c, e))
  {
    hide Lists.Step, Lists.Enabled;
    assert (run + [e])[..|run|] == run && (run + [e])[|run|] == e;
  }

  lemma {:induction false} NeverLocked<A>(events: seq<Event<A>>)
    ensures forall k :: 0 <= k < |ProgressRun(events)| ==> !ProgressRun(events)[k].ELock? && !ProgressRun(events)[k].EDisable?
  {
    if events != [] { NeverLocked(events[..|events| - 1]); }
  }

  /**
   * The progress callbacks of a pending deferred are fired by every `notify`, in the order of the calls and with their
   * arguments, also by those that progress callbacks make; and once more, with the latest arguments, by a registration
   * that comes while they do not run.
   */
  lemma NotifiedInOrder<A(!new)>(events: seq<Event<A>>, d: Deferred<A>)
    requires Reaches(events, d) && d.state.Pending?
    ensures d.progress.fires + Firings.Queued(d.progress) == Firings.Asked(MEMORY, ProgressRun(events))
    ensures !d.progress.firing ==> Firings.Queued(d.progress) == []
  {
    ProgressRuns(events, d);
    NeverLocked(events);
    Firings.FiredInOrder(MEMORY, ProgressRun(events), d.progress);
  }

  // ----- after settling

  lemma SettledStep<A>(d: Deferred<A>, e: Event<A>)
    requires Inv(d) && Enabled(d, e) && !d.state.Pending? && Firings.Shut(d.progress)
    ensures !Step(d, e).state.Pending? && Firings.Shut(Step(d, e).progress) && (e.ENotify? ==> Step(d, e) == d)
  {
    hide Settling, Lost, Settle, Return, Add, FireWith, Lists.Step, Firings.Shut;
    match e
    case ESettle(side, args) => SettleInv(d, side, args);
    case ERegister(side, ids) => RegisterKeeps(d, side, ids);
    case ENotify(args) =>
      Firings.ShutStays(MEMORY, d.progress, Lists.EFireWith(args));
      StepIs(d.progress, Lists.EFireWith(args));
    case EProgress(ids) =>
      Firings.ShutStays(MEMORY, d.progress, Lists.EAdd(Users(ids)));
      StepIs(d.progress, Lists.EAdd(Users(ids)));
    case EProgressReturn =>
      Firings.ShutStays(MEMORY, d.progress, Lists.EReturn);
      StepIs(d.progress, Lists.EReturn);
    case _ =>
  }

  lemma StepIs<A>(c: Callbacks<Handler, A>, e: Lists.Event<Handler, A>)
    requires Lists.Enabled(c, e)
    ensures e.EFireWith? ==> Lists.Step(MEMORY, c, e) == FireWith(MEMORY, c, e.data)
    ensures e.EAdd? ==> Lists.Step(MEMORY, c, e) == Add(MEMORY, c, e.fns)
    ensures e.EReturn? ==> Lists.Step(MEMORY, c, e) == Return(MEMORY, c)
  {
    hide FireWith, Add, Return;
  }

  lemma SettlingLocks<A(!new)>(events: seq<Event<A>>, d: Deferred<A>, e: Event<A>)
    requires Reaches(events, d) && d.state.Pending? && Enabled(d, e) && !Step(d, e).state.Pending?
    ensures Firings.Shut(Step(d, e).progress)
  {
    hide Settling, Settle, Return, Add, FireWith, Reaches;
    RunInv(events, d);
    ProgressRuns(events, d);
    Firings.RunFired(MEMORY, ProgressRun(events), d.progress);
    match e
    case ESettle(side, args) => SettlePending(d, side, args);
    case ERegister(side, ids) => RegisterKeeps(d, side, ids);
    case _ =>
  }

  lemma {:induction false} SettledShut<A(!new)>(events: seq<Event<A>>, d: Deferred<A>)
    requires Reaches(events, d) && !d.state.Pending?
    ensures Firings.Shut(d.progress)
    decreases |events|
  {
    hide Step, Enabled, Inv, Firings.Shut;
    var n := |events| - 1;
    var b :| Reaches(events[..n], b) && Enabled(b, events[n]) && d == Step(b, events[n]);
    RunInv(events[..n], b);
    if b.state.Pending? {
      SettlingLocks(events[..n], b, events[n]);
    } else {
      SettledShut(events[..n], b);
      SettledStep(b, events[n]);
    }
  }

  /** Once a deferred is settled `notify` does nothing, and a `notify` that waited for progress callbacks to return is dropped. */
  lemma SettledSilent<A(!new)>(events: seq<Event<A>>, d: Deferred<A>, args: A)
    requires Reaches(events, d) && !d.state.Pending?
    ensures Step(d, ENotify(args)) == d
    ensures d.progress.list.Some? ==> Firings.Queued(d.progress) == []
  {
    hide Reaches, Inv, Step;
    SettledShut(events, d);
    RunInv(events, d);
    SettledStep(d, ENotify(args));
  }
}

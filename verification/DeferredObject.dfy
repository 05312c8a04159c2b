/** The deferred as an object over three callback lists. */
module DeferredObject {
  import opened Wrappers
  import opened CallbacksList
  import CallbacksCursor
  import opened CallbacksObject
  import opened DeferredSteps
  import DeferredSafety
  import DeferredTheorems

  class DeferredCell<A> {
    const done: CallbackList<Handler, A>
    const fail: CallbackList<Handler, A>
    const progress: CallbackList<Handler, A>
    var state: Outcome
    var changes: nat
    var settledWith: Option<A>
    var doneAdded: seq<nat>
    var failAdded: seq<nat>

    constructor ()
      ensures Valid() && fresh(done) && fresh(fail) && fresh(progress) && Now() == Create()
    {
      var d := new CallbackList<Handler, A>(ONCE_MEMORY);
      var f := new CallbackList<Handler, A>(ONCE_MEMORY);
      var p := new CallbackList<Handler, A>(MEMORY);
      d.Add(INTERNAL);
      f.Add(INTERNAL);
      done, fail, progress := d, f, p;
      state, changes, settledWith, doneAdded, failAdded := Pending, 0, None, [], [];
      new;
      DeferredTheorems.CreateInv<A>();
    }

    function Now(): Deferred<A>
      reads this, done, fail, progress
    {
      Deferred(done.Now(), fail.Now(), progress.Now(), state, changes, settledWith, doneAdded, failAdded)
    }

    /** Three different lists, each with its cursor in order. */
    ghost predicate Lists()
      reads this, done, fail, progress
    {
      && done != fail && done != progress && fail != progress
      && done.options == ONCE_MEMORY && fail.options == ONCE_MEMORY && progress.options == MEMORY
      && CallbacksCursor.Inv(done.Now()) && CallbacksCursor.Inv(fail.Now()) && CallbacksCursor.Inv(progress.Now())
    }

    ghost predicate Valid()
      reads this, done, fail, progress
    {
      Lists() && DeferredSafety.Inv(Now())
    }

    function ListOf(side: Side): CallbackList<Handler, A> { if side.Done? then done else fail }

    /** What a function at the head of a settling list does. */
    method Run(side: Side, h: Handler)
      requires Lists()
      modifies this, done, fail, progress
      ensures Lists() && Now() == Effect(old(Now()), side, h)
    {
      hide CallbacksCursor.Inv, Disable, Lock;
      match h
      case SetState =>
        state := OutcomeOf(side);
        changes := changes + 1;
      case DisableOther =>
        ListOf(Other(side)).Disable();
      case LockProgress =>
        progress.Lock();
      case User(_) =>
    }

    /** Lets the functions that are not the user's take effect and return, up to `n` of them. */
    method RunHead(side: Side, n: nat)
      requires Lists()
      modifies this, done, fail, progress
      ensures Lists() && Now() == RunInternal(old(Now()), side, n)
    {
      hide CallbacksCursor.Inv, Effect, Return;
      var i := 0;
      var over := false;
      while i < n && !over
        invariant 0 <= i <= n && Lists()
        invariant if over then Now() == RunInternal(old(Now()), side, n) else RunInternal(Now(), side, n - i) == RunInternal(old(Now()), side, n)
        decreases n - i, !over
      {
        var log := ListOf(side).trace.log;
        if !ListOf(side).firing || log == [] || log[|log| - 1].fn.User? {
          over := true;
        } else {
          Run(side, log[|log| - 1].fn);
          if !ListOf(side).firing {
            over := true;
          } else {
            ListOf(side).Returned();
            i := i + 1;
          }
        }
      }
    }

    /** `resolve` and `reject`. */
    method Settle(side: Side, args: A)
      requires Valid()
      modifies this, done, fail, progress
      ensures Valid() && Now() == DeferredSteps.Settle(old(Now()), side, args)
    {
      hide CallbacksCursor.Inv, RunInternal, CallbacksList.FireWith, DeferredSafety.Inv;
      DeferredTheorems.SettleInv(Now(), side, args);
      var list := ListOf(side);
      if list.list.Some? && (!list.fired || list.stack.Some?) {
        list.FireWith(args);
        settledWith := Some(args);
        RunHead(side, |INTERNAL|);
      }
    }

    /** `done` and `fail`. */
    method Register(side: Side, ids: seq<nat>)
      requires Valid()
      modifies this, done, fail
      ensures Valid() && Now() == DeferredSteps.Register(old(Now()), side, ids)
    {
      hide CallbacksCursor.Inv, CallbacksList.Add, DeferredSafety.Inv;
      DeferredTheorems.RegisterInv(Now(), side, ids);
      ListOf(side).Add(Users(ids));
      if side.Done? {
        doneAdded := doneAdded + ids;
      } else {
        failAdded := failAdded + ids;
      }
    }

    method Notify(args: A)
      requires Valid()
      modifies progress
      ensures Valid() && Now() == Step(old(Now()), ENotify(args))
    {
      hide CallbacksCursor.Inv, CallbacksList.FireWith, DeferredSafety.Inv;
      DeferredTheorems.StepInv(Now(), ENotify(args));
      progress.FireWith(args);
    }

    /** A user's callback on a settling list returns. */
    method Returned(side: Side)
      requires Valid() && ListOf(side).firing
      modifies done, fail
      ensures Valid() && Now() == Step(old(Now()), EReturn(side))
    {
      hide CallbacksCursor.Inv, Return, DeferredSafety.Inv;
      DeferredTheorems.StepInv(Now(), EReturn(side));
      ListOf(side).Returned();
    }

    method Progress(ids: seq<nat>)
      requires Valid()
      modifies progress
      ensures Valid() && Now() == Step(old(Now()), EProgress(ids))
    {
      hide CallbacksCursor.Inv, CallbacksList.Add, DeferredSafety.Inv;
      DeferredTheorems.StepInv(Now(), EProgress(ids));
      progress.Add(Users(ids));
    }

    /** A progress callback returns. */
    method ProgressReturned()
      requires Valid() && progress.firing
      modifies progress
      ensures Valid() && Now() == Step(old(Now()), EProgressReturn)
    {
      hide CallbacksCursor.Inv, Return, DeferredSafety.Inv;
      DeferredTheorems.StepInv(Now(), EProgressReturn);
      progress.Returned();
    }
  }
}

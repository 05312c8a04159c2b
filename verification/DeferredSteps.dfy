/**
 * A deferred: three callback lists that steer one another. Callbacks may call back into the deferred while they run;
 * the return of a running callback is a step of its own.
 */
module DeferredSteps {
  import opened Wrappers
  import opened CallbacksList

  /** What is on the lists: the three functions each settling list starts with, and the users'. */
  datatype Handler = SetState | DisableOther | LockProgress | User(id: nat)

  datatype Outcome = Pending | Resolved | Rejected

  datatype Side = Done | Fail

  /** The deferred; `doneAdded` and `failAdded` record the registrations, `changes` the changes of `state`, `settledWith` the arguments of the first. */
  datatype Deferred<A> = Deferred(
    done: Callbacks<Handler, A>,
    fail: Callbacks<Handler, A>,
    progress: Callbacks<Handler, A>,
    state: Outcome,
    changes: nat,
    settledWith: Option<A>,
    doneAdded: seq<nat>,
    failAdded: seq<nat>)

  const ONCE_MEMORY: Options := Options(true, true, false)

  const MEMORY: Options := Options(false, true, false)

  const INTERNAL: seq<Handler> := [SetState, DisableOther, LockProgress]

  function Users(ids: seq<nat>): (hs: seq<Handler>)
    ensures |hs| == |ids|
  {
    seq(|ids|, k requires 0 <= k < |ids| => User(ids[k]))
  }

  function Create<A>(): Deferred<A> {
    var settling := Add(ONCE_MEMORY, Fresh<Handler, A>(ONCE_MEMORY), INTERNAL);
    Deferred(settling, settling, Fresh(MEMORY), Pending, 0, None, [], [])
  }

  function Get<A>(d: Deferred<A>, side: Side): Callbacks<Handler, A> { if side.Done? then d.done else d.fail }

  function Set<A>(d: Deferred<A>, side: Side, c: Callbacks<Handler, A>): Deferred<A> {
    if side.Done? then d.(done := c) else d.(fail := c)
  }

  function Other(side: Side): Side { if side.Done? then Fail else Done }

  function OutcomeOf(side: Side): Outcome { if side.Done? then Resolved else Rejected }

  /** What the functions at the head of a settling list do. */
  function Effect<A>(d: Deferred<A>, side: Side, h: Handler): Deferred<A> {
    match h
    case SetState => d.(state := OutcomeOf(side), changes := d.changes + 1)
    case DisableOther => Set(d, Other(side), Disable(Get(d, Other(side))))
    case LockProgress => d.(progress := Lock(d.progress))
    case User(_) => d
  }

  /** Runs the functions that have been called and are not the user's, up to `n` of them; they return at once. */
  function RunInternal<A>(d: Deferred<A>, side: Side, n: nat): Deferred<A>
    decreases n
  {
    var c := Get(d, side);
    if n == 0 || !c.firing || c.log == [] || c.log[|c.log| - 1].fn.User? then d
    else
      var e := Effect(d, side, c.log[|c.log| - 1].fn);
      if !Get(e, side).firing then e
      else RunInternal(Set(e, side, Return(ONCE_MEMORY, Get(e, side))), side, n - 1)
  }

  /** `resolve` or `reject`. */
  function Settle<A>(d: Deferred<A>, side: Side, args: A): Deferred<A> {
    var c := Get(d, side);
    if c.list.Some? && (!c.fired || c.stack.Some?) then
      RunInternal(Set(d, side, FireWith(ONCE_MEMORY, c, args)).(settledWith := Some(args)), side, |INTERNAL|)
    else d
  }

  /** `done` or `fail`. */
  function Register<A>(d: Deferred<A>, side: Side, ids: seq<nat>): Deferred<A> {
    var e := Set(d, side, Add(ONCE_MEMORY, Get(d, side), Users(ids)));
    if side.Done? then e.(doneAdded := d.doneAdded + ids) else e.(failAdded := d.failAdded + ids)
  }

  // ----- runs

  datatype Event<A> =
    | ESettle(side: Side, args: A)
    | ENotify(args: A)
    | ERegister(to: Side, ids: seq<nat>)
    | EProgress(users: seq<nat>)
    | EReturn(from: Side)
    | EProgressReturn

  predicate Enabled<A>(d: Deferred<A>, e: Event<A>) {
    match e
    case EReturn(side) => Get(d, side).firing
    case EProgressReturn => d.progress.firing
    case _ => true
  }

  function Step<A>(d: Deferred<A>, e: Event<A>): Deferred<A>
    requires Enabled(d, e)
  {
    match e
    case ESettle(side, args) => Settle(d, side, args)
    case ENotify(args) => d.(progress := FireWith(MEMORY, d.progress, args))
    case ERegister(side, ids) => Register(d, side, ids)
    case EProgress(ids) => d.(progress := Add(MEMORY, d.progress, Users(ids)))
    case EReturn(side) => Set(d, side, Return(ONCE_MEMORY, Get(d, side)))
    case EProgressReturn => d.(progress := Return(MEMORY, d.progress))
  }

  ghost predicate Reaches<A(!new)>(events: seq<Event<A>>, d: Deferred<A>)
    decreases |events|
  {
    if events == [] then d == Create()
    else
      var n := |events| - 1;
      exists b :: Reaches(events[..n], b) && Enabled(b, events[n]) && d == Step(b, events[n])
  }
}

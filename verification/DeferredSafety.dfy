/** What every step of a deferred keeps. */
module DeferredSafety {
  import opened Wrappers
  import opened CallbacksList
  import opened CallbacksCursor
  import opened CallbacksRuns
  import opened DeferredSteps

  /** The function registered under a tag. */
  function Nth(added: seq<nat>, tag: nat): Handler { if tag < 3 then INTERNAL[tag] else if tag - 3 < |added| then User(added[tag - 3]) else SetState }

  /** A settling list: not fired, firing, or done firing. Tags count registrations, and calls are made in the order of the tags. */
  ghost predicate Settling<A>(c: Callbacks<Handler, A>, added: seq<nat>) {
    && c.stack.None? && c.firingStart == 0 && c.list.Some? && !c.broken
    && c.next == 3 + |added|
    && |c.log| <= c.next
    && (forall k :: 0 <= k < |c.log| ==> c.log[k].tag == k && c.log[k].fn == Nth(added, k) && c.memory == Some(c.log[k].data))
    && var list := c.list.value;
       && |list| <= c.next
       && (forall k :: 0 <= k < |list| ==> list[k] == Entry(Nth(added, c.next - |list| + k), c.next - |list| + k))
       && (!c.fired ==> !c.firing && c.memory.None? && c.log == [] && |list| == c.next)
       && (c.fired ==> c.memory.Some?)
       && (c.fired && !c.firing ==> list == [] && |c.log| == c.next)
       && (c.firing ==> c.fired && c.data == c.memory && c.firingLength == |list| && 0 <= c.firingIndex < |list|
                        && |c.log| == c.next - |list| + c.firingIndex + 1)
  }

  /** A list that lost: it never fired and never will. */
  ghost predicate Lost<A>(c: Callbacks<Handler, A>) {
    c.list.None? && c.stack.None? && c.memory.None? && !c.fired && !c.firing && c.log == []
  }

  ghost predicate Inv<A>(d: Deferred<A>) {
    match d.state
    case Pending => Settling(d.done, d.doneAdded) && Settling(d.fail, d.failAdded) && !d.done.fired && !d.fail.fired && d.changes == 0 && d.settledWith.None?
    case Resolved => Settling(d.done, d.doneAdded) && d.done.fired && (if d.done.firing then |d.done.log| > 3 else |d.done.log| >= 3) && Lost(d.fail) && d.changes == 1 && d.done.memory == d.settledWith
    case Rejected => Settling(d.fail, d.failAdded) && d.fail.fired && (if d.fail.firing then |d.fail.log| > 3 else |d.fail.log| >= 3) && Lost(d.done) && d.changes == 1 && d.fail.memory == d.settledWith
  }

  // ----- one settling list

  lemma FireIs<A>(o: Options, c: Callbacks<Handler, A>, data: A)
    requires c.list.Some?
    ensures Fire(o, c, data) ==
            Loop(o, c.(memory := if o.memory then Some(data) else None, fired := true, firingIndex := c.firingStart, firingStart := 0,
                       firingLength := |c.list.value|, firing := true, data := Some(data), pass := [], base := c.firingStart,
                       fires := c.fires + [data]))
  {
  }

  lemma LoopCalls<A>(o: Options, c: Callbacks<Handler, A>)
    requires c.list.Some? && 0 <= c.firingIndex < c.firingLength == |c.list.value| && c.data.Some?
    ensures var e := c.list.value[c.firingIndex];
            Loop(o, c) == c.(log := c.log + [Call(e.fn, e.tag, c.data.value)], pass := c.pass + [e.tag])
  {
  }

  lemma LoopEnds<A>(c: Callbacks<Handler, A>)
    requires c.list.Some? && c.firingIndex >= c.firingLength && c.stack.None? && c.memory.Some?
    ensures Loop(ONCE_MEMORY, c) == c.(firing := false, list := Some([]))
  {
  }

  /** The first firing calls the first function, with the arguments it will remember. */
  lemma FireSettling<A>(c: Callbacks<Handler, A>, added: seq<nat>, args: A)
    requires Settling(c, added) && !c.fired
    ensures var r := FireWith(ONCE_MEMORY, c, args);
            Settling(r, added) && r.firing && |r.log| == 1 && r.memory == Some(args)
  {
    hide Fire, Loop;
    FireIs(ONCE_MEMORY, c, args);
    LoopCalls(ONCE_MEMORY, c.(memory := Some(args), fired := true, firingIndex := 0, firingStart := 0, firingLength := |c.list.value|,
                              firing := true, data := Some(args), pass := [], base := 0, fires := c.fires + [args]));
  }

  /** A return calls the next function, or ends the firing. */
  lemma ReturnSettling<A>(c: Callbacks<Handler, A>, added: seq<nat>)
    requires Settling(c, added) && c.firing
    ensures var r := Return(ONCE_MEMORY, c);
            && Settling(r, added) && r.fired && r.memory == c.memory && r.firing == (|c.log| < c.next)
            && |r.log| == |c.log| + (if r.firing then 1 else 0)
  {
    hide Fire, Loop;
    var d := c.(firingIndex := c.firingIndex + 1);
    if d.firingIndex < d.firingLength { LoopCalls(ONCE_MEMORY, d); } else { LoopEnds(d); }
  }

  lemma {:induction false} PushPlain<F>(o: Options, list: seq<Entry<F>>, next: nat, fns: seq<F>)
    requires !o.unique
    ensures var (r, n) := Push(o, list, next, fns);
            && n == next + |fns| && |r| == |list| + |fns|
            && (forall k :: 0 <= k < |list| ==> r[k] == list[k])
            && (forall k :: |list| <= k < |r| ==> r[k] == Entry(fns[k - |list|], next + k - |list|))
    decreases |fns|
  {
    if fns != [] { PushPlain(o, list + [Entry(fns[0], next)], next + 1, fns[1..]); }
  }

  /** A registration waits for the firing, joins it, or is called at once. */
  lemma AddSettling<A>(c: Callbacks<Handler, A>, added: seq<nat>, ids: seq<nat>)
    requires Settling(c, added)
    ensures var r := Add(ONCE_MEMORY, c, Users(ids));
            && Settling(r, added + ids) && r.fired == c.fired && r.memory == c.memory && |r.log| >= |c.log|
            && (c.firing ==> r.firing) && (r.firing && !c.firing ==> |r.log| > |c.log|)
  {
    hide Fire, Loop;
    PushPlain(ONCE_MEMORY, c.list.value, c.next, Users(ids));
    var (list, next) := Push(ONCE_MEMORY, c.list.value, c.next, Users(ids));
    var d := c.(list := Some(list), next := next);
    NthExtends(added, ids);
    if !d.firing && d.memory.Some? {
      var e := d.(firingStart := |c.list.value|);
      FireIs(ONCE_MEMORY, e, d.memory.value);
      var f := e.(memory := d.memory, fired := true, firingIndex := 0, firingStart := 0, firingLength := |list|, firing := true,
                  data := d.memory, pass := [], base := 0, fires := c.fires + [d.memory.value]);
      if list != [] { LoopCalls(ONCE_MEMORY, f); } else { LoopEnds(f); }
    }
  }

  lemma NthExtends(added: seq<nat>, ids: seq<nat>)
    ensures forall t :: 0 <= t < 3 + |added| ==> Nth(added + ids, t) == Nth(added, t)
    ensures forall k :: 0 <= k < |ids| ==> Nth(added + ids, 3 + |added| + k) == User(ids[k])
  {
  }
}

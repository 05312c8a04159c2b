/** What the split says about firings: who is called, how often, and in which order. */
module CallbacksTheorems {
  import opened Wrappers
  import opened CallbacksList
  import opened CallbacksCursor
  import opened CallbacksRuns

  // ----- runs

  datatype Event<F, A> =
    | EAdd(fns: seq<F>)
    | ERemove(fn: F)
    | EFireWith(data: A)
    | EReturn
    | ELock
    | EDisable

  predicate Enabled<F, A>(c: Callbacks<F, A>, e: Event<F, A>) { e.EReturn? ==> c.firing }

  function Step<F(==), A>(o: Options, c: Callbacks<F, A>, e: Event<F, A>): Callbacks<F, A>
    requires Enabled(c, e)
  {
    match e
    case EAdd(fns) => Add(o, c, fns)
    case ERemove(fn) => Remove(c, fn)
    case EFireWith(data) => FireWith(o, c, data)
    case EReturn => Return(o, c)
    case ELock => Lock(c)
    case EDisable => Disable(c)
  }

  lemma StepInv<F, A>(o: Options, c: Callbacks<F, A>, e: Event<F, A>)
    requires Inv(c) && Enabled(c, e)
    ensures Inv(Step(o, c, e))
  {
    hide Inv, Add, Remove, FireWith, Return, Lock, Disable;
    match e
    case EAdd(fns) => AddInv(o, c, fns);
    case ERemove(fn) => RemoveInv(c, fn);
    case EFireWith(data) => FireWithInv(o, c, data);
    case EReturn => ReturnInv(o, c);
    case ELock => LockInv(c);
    case EDisable => LockInv(c);
  }

  ghost predicate Reaches<F(!new), A(!new)>(o: Options, events: seq<Event<F, A>>, c: Callbacks<F, A>)
    decreases |events|
  {
    if events == [] then c == Fresh(o)
    else
      var n := |events| - 1;
      exists d :: Reaches(o, events[..n], d) && Enabled(d, events[n]) && c == Step(o, d, events[n])
  }

  /** The split holds after every run of adds, removes, firings, returns, locks and disables, in any interleaving. */
  lemma {:induction false} RunInv<F(!new), A(!new)>(o: Options, events: seq<Event<F, A>>, c: Callbacks<F, A>)
    requires Reaches(o, events, c)
    ensures Inv(c)
  {
    hide Inv, Step;
    if events == [] {
      FreshInv<F, A>(o);
    } else {
      var n := |events| - 1;
      var d :| Reaches(o, events[..n], d) && Enabled(d, events[n]) && c == Step(o, d, events[n]);
      RunInv(o, events[..n], d);
      StepInv(o, d, events[n]);
    }
  }

  lemma FreshInv<F, A>(o: Options)
    ensures Inv<F, A>(Fresh(o))
  {
  }

  // ----- a firing

  /**
   * When the last call of a firing returns, what was called in it and is still listed is, in order, the whole list from
   * where the firing began: no survivor was missed, none was called twice, none out of order.
   */
  lemma PassComplete<F(!new), A(!new)>(o: Options, events: seq<Event<F, A>>, c: Callbacks<F, A>)
    requires Reaches(o, events, c) && c.firing && c.list.Some? && c.firingIndex + 1 >= c.firingLength
    ensures 0 <= c.base <= |c.list.value| && Surviving(c.pass, Tags(c.list.value)) == Tags(c.list.value)[c.base..]
    ensures Distinct(c.pass)
  {
    hide Surviving, Tags, Distinct;
    RunInv(o, events, c);
    var tags := Tags(c.list.value);
    assert tags[c.base..c.firingIndex + 1] == tags[c.base..];
  }

  /** Until then the next call is the first entry that has not been called: the one after the last called survivor. */
  lemma NextCall<F(!new), A(!new)>(o: Options, events: seq<Event<F, A>>, c: Callbacks<F, A>)
    requires Reaches(o, events, c) && c.firing && c.list.Some? && c.firingIndex + 1 < c.firingLength
    ensures -1 <= c.firingIndex && c.firingIndex + 1 < |c.list.value| && c.data.Some?
    ensures var e := c.list.value[c.firingIndex + 1];
            Return(o, c).log == c.log + [Call(e.fn, e.tag, c.data.value)] && e.tag !in c.pass
  {
    hide Surviving, Distinct;
    RunInv(o, events, c);
    assert Tags(c.list.value)[c.firingIndex + 1] == c.list.value[c.firingIndex + 1].tag;
  }

  // ----- a removed registration

  function Count<F, A>(log: seq<Call<F, A>>, t: nat): nat {
    if log == [] then 0 else Count(log[..|log| - 1], t) + if log[|log| - 1].tag == t then 1 else 0
  }

  /** The registration has been made and is not on the list. */
  ghost predicate Gone<F, A>(c: Callbacks<F, A>, t: nat) {
    t < c.next && (c.list.Some? ==> forall k :: 0 <= k < |c.list.value| ==> c.list.value[k].tag != t)
  }

  ghost predicate StaysGone<F, A>(c: Callbacks<F, A>, d: Callbacks<F, A>, t: nat) { Gone(d, t) && Count(d.log, t) == Count(c.log, t) }

  lemma {:induction false} LoopGone<F, A>(o: Options, c: Callbacks<F, A>, t: nat)
    requires Gone(c, t)
    ensures StaysGone(c, Loop(o, c), t)
    decreases if c.stack.Some? then |c.stack.value| else 0, 0
  {
    hide Fire;
    if c.list.Some? && c.firingIndex < c.firingLength {
      if 0 <= c.firingIndex < |c.list.value| && c.data.Some? {
        var e := c.list.value[c.firingIndex];
        var call := Call(e.fn, e.tag, c.data.value);
        assert (c.log + [call])[..|c.log|] == c.log;
      }
    } else {
      var d := c.(firing := false);
      if d.list.Some? && d.stack.Some? && d.stack.value != [] {
        FireGone(o, d.(stack := Some(d.stack.value[1..])), d.stack.value[0], t);
      }
    }
  }

  lemma {:induction false} FireGone<F, A>(o: Options, c: Callbacks<F, A>, data: A, t: nat)
    requires Gone(c, t)
    ensures StaysGone(c, Fire(o, c, data), t)
    decreases if c.stack.Some? then |c.stack.value| else 0, 1
  {
    hide Loop;
    LoopGone(o, c.(memory := if o.memory then Some(data) else None, fired := true, firingIndex := c.firingStart, firingStart := 0,
                   firingLength := if c.list.Some? then |c.list.value| else 0, firing := true, data := Some(data), pass := [],
                   base := c.firingStart, fires := c.fires + [data]), t);
  }

  lemma {:induction false} PushGone<F>(o: Options, list: seq<Entry<F>>, next: nat, fns: seq<F>, t: nat)
    requires t < next && forall k :: 0 <= k < |list| ==> list[k].tag != t
    ensures var (r, n) := Push(o, list, next, fns); t < n && forall k :: 0 <= k < |r| ==> r[k].tag != t
    decreases |fns|
  {
    if fns != [] {
      if o.unique && Has(list, fns[0]) {
        PushGone(o, list, next, fns[1..], t);
      } else {
        PushGone(o, list + [Entry(fns[0], next)], next + 1, fns[1..], t);
      }
    }
  }

  lemma {:induction false} RemoveGone<F, A>(c: Callbacks<F, A>, fn: F, from: nat, t: nat)
    requires c.list.Some? && Gone(c, t)
    ensures StaysGone(c, RemoveFrom(c, fn, from), t)
    decreases |c.list.value|
  {
    var k := InArray(fn, c.list.value, from);
    if k != -1 { RemoveGone(Splice(c, k), fn, k, t); }
  }

  /** Whatever happens next, a registration that is off the list is never called again. */
  lemma GoneForGood<F, A>(o: Options, c: Callbacks<F, A>, e: Event<F, A>, t: nat)
    requires Gone(c, t) && Enabled(c, e)
    ensures StaysGone(c, Step(o, c, e), t)
  {
    hide Loop, Fire, Push, RemoveFrom;
    match e
    case EAdd(fns) =>
      if c.list.Some? {
        PushGone(o, c.list.value, c.next, fns, t);
        var (list, next) := Push(o, c.list.value, c.next, fns);
        var d := c.(list := Some(list), next := next);
        if !d.firing && d.memory.Some? { FireGone(o, d.(firingStart := |c.list.value|), d.memory.value, t); }
      }
    case ERemove(fn) => if c.list.Some? { RemoveGone(c, fn, 0, t); }
    case EFireWith(data) => if c.list.Some? && (!c.fired || c.stack.Some?) && !c.firing { FireGone(o, c, data, t); }
    case EReturn => LoopGone(o, c.(firingIndex := c.firingIndex + 1), t);
    case _ =>
  }

  // ----- emptying during a firing

  lemma PushOne<F>(o: Options, next: nat, fn: F)
    ensures Push(o, [], next, [fn]) == ([Entry(fn, next)], next + 1)
  {
    assert [fn][1..] == [];
    var none: seq<Entry<F>> := [];
    assert none + [Entry(fn, next)] == [Entry(fn, next)];
    assert !Has(none, fn);
  }

  /**
   * `empty` does not move the cursor back: a callback added after it in the same firing is called when the running one
   * returns exactly if the cursor stood before the list, that is, if the running callback had been removed from the front.
   */
  lemma EmptyThenAdd<F(!new), A(!new)>(o: Options, events: seq<Event<F, A>>, c: Callbacks<F, A>, fn: F)
    requires Reaches(o, events, c) && c.firing && c.list.Some?
    ensures var d := Add(o, Empty(c), [fn]);
            && d.firing && d.list == Some([Entry(fn, c.next)])
            && (c.stack == None || c.stack == Some([]) ==> (Count(Return(o, d).log, c.next) > Count(c.log, c.next) <==> c.firingIndex < 0))
  {
    hide Surviving, Distinct, Tags;
    RunInv(o, events, c);
    var d := Add(o, Empty(c), [fn]);
    PushOne(o, c.next, fn);
    var r := Return(o, d);
    if c.firingIndex < 0 {
      assert r.log[..|c.log|] == c.log;
    } else if c.stack == None || c.stack == Some([]) {
      assert r.log == c.log;
    }
  }

  /** A list with one function that is running: it is emptied and another one is added, which is not called though it is on
      the list when the firing ends. */
  lemma EmptyLosesCallback()
    ensures var o, c := Options(false, false, false), Running();
            && Reaches(o, [EAdd([0]), EFireWith(7)], c) && c.firing && c.firingIndex == 0
            && var r := Return(o, Add(o, Empty(c), [1])); !r.firing && r.list == Some([Entry(1, 1)]) && r.log == [Call(0, 0, 7)]
  {
    var o, c := Options(false, false, false), Running();
    var events: seq<Event<nat, nat>> := [EAdd([0]), EFireWith(7)];
    PushOne(o, 0, 0);
    var b := Fresh<nat, nat>(o).(list := Some([Entry(0, 0)]), next := 1);
    assert events[..1] == [EAdd([0])] && events[..1][..0] == [];
    assert Reaches(o, [], Fresh<nat, nat>(o));
    assert Step(o, Fresh(o), events[..1][0]) == b;
    assert Reaches(o, events[..1], b);
    assert Step(o, b, events[1]) == c;
    PushOne(o, 1, 1);
  }

  /** The list while its one function runs. */
  function Running(): Callbacks<nat, nat> {
    Callbacks(Some([Entry(0, 0)]), None, true, true, 0, 1, 0, Some([]), 1, [Call(0, 0, 7)], Some(7), [0], 0, [7], false)
  }
}

/** Which firings a list makes, in which order and with which arguments, and what its options and its locks do to that. */
module CallbacksFirings {
  import opened Sequences
  import opened Wrappers
  import opened CallbacksList
  import opened CallbacksCursor
  import opened CallbacksRuns
  import opened CallbacksTheorems

  // ----- the firings of a repeatable list

  /** The fires that wait for the firing under way to end. */
  function Queued<F, A>(c: Callbacks<F, A>): seq<A> { if c.stack.Some? then c.stack.value else [] }

  /** A list that can be fired again: nothing waits when it does not fire, and it remembers the arguments of its last firing. */
  ghost predicate Repeatable<F, A>(o: Options, c: Callbacks<F, A>) {
    && c.list.Some? && c.stack.Some? && (!c.firing ==> c.stack.value == [])
    && Remembers(o, c)
  }

  predicate Remembers<F, A(==)>(o: Options, c: Callbacks<F, A>) {
    && c.memory == (if o.memory && c.fires != [] then Some(Last(c.fires)) else None)
    && c.data == (if c.fires != [] then Some(Last(c.fires)) else None)
  }

  lemma {:induction false} LoopFires<F, A>(o: Options, c: Callbacks<F, A>)
    requires c.list.Some? && c.stack.Some? && c.firing && Remembers(o, c)
    ensures Repeatable(o, Loop(o, c)) && Loop(o, c).fires + Queued(Loop(o, c)) == c.fires + Queued(c)
    decreases if c.stack.Some? then |c.stack.value| else 0, 0
  {
    hide Fire;
    var queue := c.stack.value;
    if c.firingIndex >= c.firingLength && queue != [] {
      FireFires(o, c.(firing := false, stack := Some(queue[1..])), queue[0]);
      assert (c.fires + [queue[0]]) + queue[1..] == c.fires + queue;
    }
  }

  lemma {:induction false} FireFires<F, A>(o: Options, c: Callbacks<F, A>, data: A)
    requires c.list.Some? && c.stack.Some?
    ensures Repeatable(o, Fire(o, c, data)) && Fire(o, c, data).fires + Queued(Fire(o, c, data)) == (c.fires + [data]) + Queued(c)
    decreases if c.stack.Some? then |c.stack.value| else 0, 1
  {
    hide Loop;
    LoopFires(o, c.(memory := if o.memory then Some(data) else None, fired := true, firingIndex := c.firingStart, firingStart := 0,
                    firingLength := if c.list.Some? then |c.list.value| else 0, firing := true, data := Some(data), pass := [],
                    base := c.firingStart, fires := c.fires + [data]));
  }

  /** The firings that step `e` asks for, after the firings `before`: one for a fire, and one with the last arguments for an
      addition to an idle list that remembers them. */
  function Asks<F, A>(o: Options, c: Callbacks<F, A>, e: Event<F, A>, before: seq<A>): seq<A> {
    match e
    case EFireWith(data) => [data]
    case EAdd(_) => if o.memory && !c.firing && before != [] then [Last(before)] else []
    case _ => []
  }

  lemma StepFires<F, A>(o: Options, c: Callbacks<F, A>, e: Event<F, A>)
    requires Repeatable(o, c) && Enabled(c, e) && !e.ELock? && !e.EDisable?
    ensures var d := Step(o, c, e);
            Repeatable(o, d) && d.fires + Queued(d) == (c.fires + Queued(c)) + Asks(o, c, e, c.fires + Queued(c))
  {
    hide Fire, Loop, Push, RemoveFrom;
    var asked := c.fires + Queued(c);
    assert asked + [] == asked;
    match e
    case EAdd(fns) =>
      var (list, next) := Push(o, c.list.value, c.next, fns);
      var d := c.(list := Some(list), next := next);
      if !d.firing && d.memory.Some? {
        FireFires(o, d.(firingStart := |c.list.value|), d.memory.value);
        assert asked == c.fires && (c.fires + [d.memory.value]) + [] == asked + [d.memory.value];
      }
    case ERemove(fn) => RemoveKeeps(c, fn, 0);
    case EFireWith(data) =>
      if c.firing {
        assert c.fires + (c.stack.value + [data]) == asked + [data];
      } else {
        FireFires(o, c, data);
        assert (c.fires + [data]) + [] == asked + [data];
      }
    case EReturn => LoopFires(o, c.(firingIndex := c.firingIndex + 1));
  }

  lemma {:induction false} RemoveKeeps<F, A>(c: Callbacks<F, A>, fn: F, from: nat)
    requires c.list.Some?
    ensures var d := RemoveFrom(c, fn, from);
            d.list.Some? && d == c.(list := d.list, firingLength := d.firingLength, firingIndex := d.firingIndex, base := d.base)
    decreases |c.list.value|
  {
    var k := InArray(fn, c.list.value, from);
    if k != -1 { RemoveKeeps(Splice(c, k), fn, k); }
  }

  /** The list after a run; a return with no callback running does nothing. */
  function After<F(==), A>(o: Options, events: seq<Event<F, A>>): Callbacks<F, A>
    decreases |events|
  {
    if events == [] then Fresh(o)
    else
      var c, e := After(o, events[..|events| - 1]), events[|events| - 1];
      if Enabled(c, e) then Step(o, c, e) else c
  }

  lemma {:induction false} AfterIs<F(!new), A(!new)>(o: Options, events: seq<Event<F, A>>, c: Callbacks<F, A>)
    requires Reaches(o, events, c)
    ensures c == After(o, events)
    decreases |events|
  {
    hide Step, Enabled;
    if events != [] {
      var n := |events| - 1;
      var d :| Reaches(o, events[..n], d) && Enabled(d, events[n]) && c == Step(o, d, events[n]);
      AfterIs(o, events[..n], d);
    }
  }

  /** The firings that a run asks for. */
  function Asked<F(==), A>(o: Options, events: seq<Event<F, A>>): seq<A>
    decreases |events|
  {
    if events == [] then []
    else
      var before := events[..|events| - 1];
      Asked(o, before) + Asks(o, After(o, before), events[|events| - 1], Asked(o, before))
  }

  /** The arguments of the fires, in the order they were made. */
  function FireArgs<F, A>(events: seq<Event<F, A>>): seq<A> {
    if events == [] then []
    else FireArgs(events[..|events| - 1]) + match events[|events| - 1] case EFireWith(data) => [data] case _ => []
  }

  lemma {:induction false} AskedWithoutMemory<F, A>(o: Options, events: seq<Event<F, A>>)
    requires !o.memory
    ensures Asked(o, events) == FireArgs(events)
  {
    hide After;
    if events != [] { AskedWithoutMemory(o, events[..|events| - 1]); }
  }

  /**
   * A repeatable list that is neither locked nor disabled makes exactly the firings asked for, with the arguments of the
   * calls, in the order of the calls, but for those that wait; none waits once the list does not fire.
   */
  lemma {:induction false} FiredInOrder<F(!new), A(!new)>(o: Options, events: seq<Event<F, A>>, c: Callbacks<F, A>)
    requires Reaches(o, events, c) && !o.once && forall k :: 0 <= k < |events| ==> !events[k].ELock? && !events[k].EDisable?
    ensures c.fires + Queued(c) == Asked(o, events)
    ensures !o.memory ==> c.fires + Queued(c) == FireArgs(events)
    ensures !c.firing ==> Queued(c) == []
    ensures c.data == (if c.fires != [] then Some(Last(c.fires)) else None)
    ensures Repeatable(o, c)
    decreases |events|
  {
    hide Step, Enabled, Asks, FireArgs;
    if !o.memory { AskedWithoutMemory(o, events); }
    if events != [] {
      var n := |events| - 1;
      var d :| Reaches(o, events[..n], d) && Enabled(d, events[n]) && c == Step(o, d, events[n]);
      FiredInOrder(o, events[..n], d);
      AfterIs(o, events[..n], d);
      StepFires(o, d, events[n]);
    }
  }

  // ----- how a firing begins

  /** A firing begins with the entry at `start`, called with `data`, or ends at once if there is none. */
  ghost predicate Begins<F, A>(c: Callbacks<F, A>, list: seq<Entry<F>>, start: nat, data: A, r: Callbacks<F, A>) {
    start < |list| ==>
      && r.firing && r.list == Some(list) && r.base == start == r.firingIndex && r.pass == [list[start].tag]
      && r.log == c.log + [Call(list[start].fn, list[start].tag, data)] && r.fires == c.fires + [data]
  }

  lemma FireBegins<F, A>(o: Options, c: Callbacks<F, A>, data: A)
    requires c.list.Some?
    ensures Begins(c, c.list.value, c.firingStart, data, Fire(o, c, data))
    ensures c.firingStart < |c.list.value| ==> Fire(o, c, data).stack == c.stack
  {
  }

  /** A fire of an idle list calls the first entry with the arguments of the fire. */
  lemma FireCalls<F(!new), A(!new)>(o: Options, events: seq<Event<F, A>>, c: Callbacks<F, A>, data: A)
    requires Reaches(o, events, c) && !c.firing && c.list.Some? && (!c.fired || c.stack.Some?)
    ensures Begins(c, c.list.value, 0, data, FireWith(o, c, data))
  {
    hide Fire, Inv, Reaches;
    RunInv(o, events, c);
    FireBegins(o, c, data);
    StartsAtZero(c);
  }

  lemma StartsAtZero<F, A>(c: Callbacks<F, A>)
    requires Inv(c)
    ensures c.firingStart == 0
  {
  }

  /** When the last callback of a firing returns, the fire that has waited longest begins. */
  lemma QueuedBegins<F(!new), A(!new)>(o: Options, events: seq<Event<F, A>>, c: Callbacks<F, A>)
    requires Reaches(o, events, c) && c.firing && c.list.Some? && c.firingIndex + 1 >= c.firingLength && Queued(c) != []
    ensures Begins(c, c.list.value, 0, Queued(c)[0], Return(o, c))
    ensures c.list.value != [] ==> Queued(Return(o, c)) == Queued(c)[1..]
  {
    hide Inv, Reaches;
    RunInv(o, events, c);
    StartsAtZero(c);
    FireBegins(o, c.(firingIndex := c.firingIndex + 1, firing := false, stack := Some(c.stack.value[1..])), c.stack.value[0]);
  }

  // ----- memory

  /** An addition to an idle list that remembers calls what was added, and nothing that was there before, with the remembered arguments. */
  lemma AddFires<F(!new), A(!new)>(o: Options, events: seq<Event<F, A>>, c: Callbacks<F, A>, fns: seq<F>)
    requires Reaches(o, events, c) && !c.firing && c.list.Some? && c.memory.Some?
    ensures var (list, next) := Push(o, c.list.value, c.next, fns);
            Begins(c, list, |c.list.value|, c.memory.value, Add(o, c, fns))
  {
    hide Fire, Push;
    var (list, next) := Push(o, c.list.value, c.next, fns);
    FireBegins(o, c.(list := Some(list), next := next, firingStart := |c.list.value|), c.memory.value);
  }

  // ----- unique lists

  /** The functions that are added to a unique list: those that are not on it, each once. */
  function Added<F(==)>(unique: bool, on: seq<F>, fns: seq<F>): seq<F>
    decreases |fns|
  {
    if fns == [] then []
    else if unique && fns[0] in on then Added(unique, on, fns[1..])
    else [fns[0]] + Added(unique, on + [fns[0]], fns[1..])
  }

  function Fns<F>(list: seq<Entry<F>>): (fs: seq<F>)
    ensures |fs| == |list|
  {
    seq(|list|, k requires 0 <= k < |list| => list[k].fn)
  }

  lemma HasIs<F>(list: seq<Entry<F>>, fn: F)
    ensures Has(list, fn) <==> fn in Fns(list)
  {
    if Has(list, fn) {
      var k :| 0 <= k < |list| && list[k].fn == fn;
      assert Fns(list)[k] == fn;
    }
    if fn in Fns(list) {
      var k :| 0 <= k < |list| && Fns(list)[k] == fn;
      assert list[k].fn == fn;
    }
  }

  /** `add` appends the functions in order; a unique list takes none that it has. */
  lemma {:induction false} PushIs<F>(o: Options, list: seq<Entry<F>>, next: nat, fns: seq<F>)
    ensures Fns(Push(o, list, next, fns).0) == Fns(list) + Added(o.unique, Fns(list), fns)
    decreases |fns|
  {
    if fns == [] {
    } else if o.unique && Has(list, fns[0]) {
      HasIs(list, fns[0]);
      PushIs(o, list, next, fns[1..]);
    } else {
      HasIs(list, fns[0]);
      var more := list + [Entry(fns[0], next)];
      assert Fns(more) == Fns(list) + [fns[0]];
      PushIs(o, more, next + 1, fns[1..]);
      assert (Fns(list) + [fns[0]]) + Added(o.unique, Fns(more), fns[1..]) == Fns(list) + Added(o.unique, Fns(list), fns);
    }
  }

  predicate Different<F(==)>(fns: seq<F>) { forall i, j :: 0 <= i < j < |fns| ==> fns[i] != fns[j] }

  lemma DifferentIs<F>(fns: seq<F>, i: nat, j: nat)
    requires Different(fns) && i < j < |fns|
    ensures fns[i] != fns[j]
  {
  }

  lemma {:induction false} AddedDifferent<F>(on: seq<F>, fns: seq<F>)
    requires Different(on)
    ensures Different(on + Added(true, on, fns))
    decreases |fns|
  {
    if fns == [] {
      assert on + [] == on;
    } else if fns[0] in on {
      AddedDifferent(on, fns[1..]);
    } else {
      AddedDifferent(on + [fns[0]], fns[1..]);
      assert (on + [fns[0]]) + Added(true, on + [fns[0]], fns[1..]) == on + Added(true, on, fns);
    }
  }

  lemma {:induction false} LoopLists<F, A>(o: Options, c: Callbacks<F, A>)
    ensures Loop(o, c).list == c.list || Loop(o, c).list == Some([]) || Loop(o, c).list == None
    decreases if c.stack.Some? then |c.stack.value| else 0, 0
  {
    hide Fire;
    if c.list.Some? && c.firingIndex >= c.firingLength && c.stack.Some? && c.stack.value != [] {
      FireLists(o, c.(firing := false, stack := Some(c.stack.value[1..])), c.stack.value[0]);
    }
  }

  lemma {:induction false} FireLists<F, A>(o: Options, c: Callbacks<F, A>, data: A)
    ensures Fire(o, c, data).list == c.list || Fire(o, c, data).list == Some([]) || Fire(o, c, data).list == None
    decreases if c.stack.Some? then |c.stack.value| else 0, 1
  {
    hide Loop;
    LoopLists(o, c.(memory := if o.memory then Some(data) else None, fired := true, firingIndex := c.firingStart, firingStart := 0,
                    firingLength := if c.list.Some? then |c.list.value| else 0, firing := true, data := Some(data), pass := [],
                    base := c.firingStart, fires := c.fires + [data]));
  }

  lemma {:induction false} WithoutDifferent<F>(list: seq<Entry<F>>, fn: F)
    requires Different(Fns(list))
    ensures Different(Fns(Without(list, fn))) && forall f :: f in Fns(Without(list, fn)) ==> f in Fns(list)
  {
    if list != [] {
      var fns, left := Fns(list), Without(list[1..], fn);
      assert Fns(list[1..]) == fns[1..];
      WithoutDifferent(list[1..], fn);
      if list[0].fn == fn {
        assert [] + left == left;
      } else {
        assert Fns([list[0]] + left) == [fns[0]] + Fns(left);
        HeadDifferent(fns, Fns(left));
      }
    }
  }

  lemma HeadDifferent<F>(fns: seq<F>, left: seq<F>)
    requires fns != [] && Different(fns) && Different(left) && forall f :: f in left ==> f in fns[1..]
    ensures Different([fns[0]] + left)
  {
    forall j | 0 <= j < |left| ensures left[j] != fns[0] {
      assert left[j] in left;
      var k :| 0 <= k < |fns[1..]| && fns[1..][k] == left[j];
      DifferentIs(fns, 0, k + 1);
    }
  }

  ghost predicate NoneTwice<F, A>(c: Callbacks<F, A>) { c.list.Some? ==> Different(Fns(c.list.value)) }

  lemma StepNoneTwice<F, A>(o: Options, c: Callbacks<F, A>, e: Event<F, A>)
    requires o.unique && NoneTwice(c) && Enabled(c, e)
    ensures NoneTwice(Step(o, c, e))
  {
    hide Fire, Loop, Push, RemoveFrom, Without;
    match e
    case EAdd(fns) =>
      if c.list.Some? {
        PushIs(o, c.list.value, c.next, fns);
        AddedDifferent(Fns(c.list.value), fns);
        var (list, next) := Push(o, c.list.value, c.next, fns);
        var d := c.(list := Some(list), next := next);
        if !d.firing && d.memory.Some? { FireLists(o, d.(firingStart := |c.list.value|), d.memory.value); }
      }
    case ERemove(fn) =>
      if c.list.Some? {
        RemoveFromIs(c, fn, 0);
        WithoutDifferent(c.list.value, fn);
      }
    case EFireWith(data) => FireLists(o, c, data);
    case EReturn => LoopLists(o, c.(firingIndex := c.firingIndex + 1));
    case _ =>
  }

  /** A unique list never holds a function twice. */
  lemma {:induction false} UniqueHolds<F(!new), A(!new)>(o: Options, events: seq<Event<F, A>>, c: Callbacks<F, A>)
    requires Reaches(o, events, c) && o.unique && c.list.Some?
    ensures forall i, j :: 0 <= i < j < |c.list.value| ==> c.list.value[i].fn != c.list.value[j].fn
  {
    RunNoneTwice(o, events, c);
    forall i, j | 0 <= i < j < |c.list.value| ensures c.list.value[i].fn != c.list.value[j].fn {
      DifferentIs(Fns(c.list.value), i, j);
    }
  }

  lemma {:induction false} RunNoneTwice<F(!new), A(!new)>(o: Options, events: seq<Event<F, A>>, c: Callbacks<F, A>)
    requires Reaches(o, events, c) && o.unique
    ensures NoneTwice(c)
    decreases |events|
  {
    hide Step, Enabled;
    if events != [] {
      var n := |events| - 1;
      var d :| Reaches(o, events[..n], d) && Enabled(d, events[n]) && c == Step(o, d, events[n]);
      RunNoneTwice(o, events[..n], d);
      StepNoneTwice(o, d, events[n]);
    }
  }

  // ----- locks

  /** No fire has an effect any more. */
  predicate Shut<F, A>(c: Callbacks<F, A>) { c.list.None? || (c.fired && c.stack.None?) }

  lemma LoopShut<F, A>(o: Options, c: Callbacks<F, A>)
    requires c.list.None? || c.stack.None?
    ensures var d := Loop(o, c);
            && (c.list.None? ==> d.list.None? && d.log == c.log)
            && d.fired == c.fired && (d.list.None? || d.stack == c.stack) && d.fires == c.fires
            && (d.memory == c.memory || d.memory.None?)
  {
  }

  lemma ShutStays<F, A>(o: Options, c: Callbacks<F, A>, e: Event<F, A>)
    requires Shut(c) && Enabled(c, e)
    ensures Shut(Step(o, c, e)) && (e.EFireWith? ==> Step(o, c, e) == c)
    ensures c.list.None? ==> Step(o, c, e).list.None? && Step(o, c, e).log == c.log && Step(o, c, e).fires == c.fires
  {
    hide Loop, Push, RemoveFrom;
    match e
    case EAdd(fns) =>
      if c.list.Some? {
        var (list, next) := Push(o, c.list.value, c.next, fns);
        var d := c.(list := Some(list), next := next);
        if !d.firing && d.memory.Some? { FireShut(o, d.(firingStart := |c.list.value|), d.memory.value); }
      }
    case ERemove(fn) => if c.list.Some? { RemoveKeeps(c, fn, 0); }
    case EReturn => LoopShut(o, c.(firingIndex := c.firingIndex + 1));
    case _ =>
  }

  lemma FireShut<F, A>(o: Options, c: Callbacks<F, A>, data: A)
    requires c.list.None? || c.stack.None?
    ensures var d := Fire(o, c, data);
            && d.fired && (d.list.None? || d.stack == c.stack) && d.fires == c.fires + [data]
            && (d.memory == None || d.memory == Some(data))
  {
    hide Loop;
    LoopShut(o, c.(memory := if o.memory then Some(data) else None, fired := true, firingIndex := c.firingStart, firingStart := 0,
                   firingLength := if c.list.Some? then |c.list.value| else 0, firing := true, data := Some(data), pass := [],
                   base := c.firingStart, fires := c.fires + [data]));
  }

  lemma {:induction false} LoopFired<F, A>(o: Options, c: Callbacks<F, A>)
    requires c.fired
    ensures Loop(o, c).fired
    decreases if c.stack.Some? then |c.stack.value| else 0, 0
  {
    hide Fire;
    if c.stack.Some? && c.stack.value != [] { FireFired(o, c.(firing := false, stack := Some(c.stack.value[1..])), c.stack.value[0]); }
  }

  lemma {:induction false} FireFired<F, A>(o: Options, c: Callbacks<F, A>, data: A)
    ensures Fire(o, c, data).fired
    decreases if c.stack.Some? then |c.stack.value| else 0, 1
  {
    hide Loop;
    LoopFired(o, c.(memory := if o.memory then Some(data) else None, fired := true, firingIndex := c.firingStart, firingStart := 0,
                    firingLength := if c.list.Some? then |c.list.value| else 0, firing := true, data := Some(data), pass := [],
                    base := c.firingStart, fires := c.fires + [data]));
  }

  lemma StepFired<F, A>(o: Options, c: Callbacks<F, A>, e: Event<F, A>)
    requires Inv(c) && Enabled(c, e) && (c.memory.Some? ==> c.fired)
    ensures Step(o, c, e).memory.Some? ==> Step(o, c, e).fired
  {
    hide Loop, Push, RemoveFrom, Fire, Surviving, Tags, Distinct;
    match e
    case EAdd(fns) =>
      if c.list.Some? && c.memory.Some? {
        var (list, next) := Push(o, c.list.value, c.next, fns);
        FireFired(o, c.(list := Some(list), next := next, firingStart := |c.list.value|), c.memory.value);
      }
    case ERemove(fn) => if c.list.Some? { RemoveKeeps(c, fn, 0); }
    case EFireWith(data) => FireFired(o, c, data);
    case EReturn => LoopFired(o, c.(firingIndex := c.firingIndex + 1));
    case _ =>
  }

  lemma {:induction false} RunFired<F(!new), A(!new)>(o: Options, events: seq<Event<F, A>>, c: Callbacks<F, A>)
    requires Reaches(o, events, c)
    ensures c.memory.Some? ==> c.fired
    decreases |events|
  {
    hide Step, Enabled, Inv;
    if events != [] {
      var n := |events| - 1;
      var d :| Reaches(o, events[..n], d) && Enabled(d, events[n]) && c == Step(o, d, events[n]);
      RunFired(o, events[..n], d);
      RunInv(o, events[..n], d);
      StepFired(o, d, events[n]);
    }
  }

  /** Once a list has been locked or disabled no fire has any effect, and what waited is dropped; a disabled list calls nothing more. */
  lemma {:induction false} LockStops<F(!new), A(!new)>(o: Options, events: seq<Event<F, A>>, c: Callbacks<F, A>, e: Event<F, A>)
    requires Reaches(o, events, c) && Enabled(c, e) && exists k :: 0 <= k < |events| && (events[k].ELock? || events[k].EDisable?)
    ensures Queued(c) == [] && (e.EFireWith? ==> Step(o, c, e) == c)
    ensures (exists k :: 0 <= k < |events| && events[k].EDisable?) ==> c.list.None? && Step(o, c, e).log == c.log
  {
    hide Step, Reaches, Inv;
    RunShut(o, events, c);
    RunInv(o, events, c);
    ShutStays(o, c, e);
    DisabledEmpty(c);
  }

  lemma DisabledEmpty<F, A>(c: Callbacks<F, A>)
    requires Inv(c)
    ensures c.list.None? ==> c.stack.None?
  {
  }

  lemma {:induction false} RunShut<F(!new), A(!new)>(o: Options, events: seq<Event<F, A>>, c: Callbacks<F, A>)
    requires Reaches(o, events, c)
    ensures (exists k :: 0 <= k < |events| && (events[k].ELock? || events[k].EDisable?)) ==> Shut(c)
    ensures (exists k :: 0 <= k < |events| && events[k].EDisable?) ==> c.list.None?
    decreases |events|
  {
    hide Enabled, Step, Shut;
    if events != [] {
      var n := |events| - 1;
      var before, e := events[..n], events[n];
      var d :| Reaches(o, before, d) && Enabled(d, e) && c == Step(o, d, e);
      RunShut(o, before, d);
      RunFired(o, before, d);
      if e.ELock? || e.EDisable? { LockShuts(o, d, e); }
      if k :| 0 <= k < |events| && (events[k].ELock? || events[k].EDisable?) && k < n {
        assert before[k] == events[k];
        ShutStays(o, d, e);
      }
      if k :| 0 <= k < |events| && events[k].EDisable? && k < n {
        assert before[k] == events[k];
        ShutStays(o, d, e);
      }
    }
  }

  lemma LockShuts<F, A>(o: Options, c: Callbacks<F, A>, e: Event<F, A>)
    requires e.ELock? || e.EDisable?
    requires c.memory.Some? ==> c.fired
    ensures Enabled(c, e) && Shut(Step(o, c, e)) && (e.EDisable? ==> Step(o, c, e).list.None?)
  {
  }

  // ----- lists that fire once

  /** A list that fires once, with the arguments of its first fire: no fire waits, and all its firings have these arguments. */
  ghost predicate Single<F, A>(o: Options, c: Callbacks<F, A>, first: Option<A>) {
    && c.stack.None? && (c.memory.Some? ==> c.memory == first && c.fired)
    && (c.fired <==> c.fires != []) && (c.firing ==> c.fired)
    && (first.Some? ==> c.fired || c.list.None?)
    && AllAre(c.fires, first)
    && (c.fired && !c.firing ==> c.list == None || c.list == Some([]))
    && (c.fired && c.list.Some? && o.memory ==> c.memory.Some?)
    && (!o.memory ==> |c.fires| <= 1 && c.memory.None? && (c.fired && !c.firing ==> c.list.None?))
  }

  ghost predicate AllAre<A>(fires: seq<A>, first: Option<A>) { forall k :: 0 <= k < |fires| ==> first == Some(fires[k]) }

  /** The firing of an addition. */
  lemma AgainSingle<F, A>(o: Options, c: Callbacks<F, A>, d: Callbacks<F, A>, first: Option<A>)
    requires Single(o, c, first) && c.memory.Some? && d.list.Some?
    requires d == c.(list := d.list, next := d.next, firingStart := d.firingStart)
    ensures Single(o, Fire(o, d, c.memory.value), first)
  {
  }

  function FirstArgs<F, A>(first: Option<A>, e: Event<F, A>): Option<A> { if first.None? && e.EFireWith? then Some(e.data) else first }

  lemma StepSingle<F, A>(o: Options, c: Callbacks<F, A>, e: Event<F, A>, first: Option<A>)
    requires o.once && Single(o, c, first) && Enabled(c, e)
    ensures Single(o, Step(o, c, e), FirstArgs(first, e))
  {
    hide Push, RemoveFrom, AllAre, Fire, Loop;
    match e
    case EAdd(fns) =>
      if c.list.Some? && !c.firing && c.memory.Some? {
        var (list, next) := Push(o, c.list.value, c.next, fns);
        AgainSingle(o, c, c.(list := Some(list), next := next, firingStart := |c.list.value|), first);
      }
    case ERemove(fn) =>
      if c.list.Some? {
        RemoveKeeps(c, fn, 0);
        NothingRemoved(c, fn);
      }
    case EFireWith(data) =>
      FiredFirst(o, c, first, data);
      if c.list.Some? && !c.fired { NowSingle(o, c, first, data); }
    case EReturn => ReturnSingle(o, c, first);
    case _ =>
  }

  lemma NothingRemoved<F, A>(c: Callbacks<F, A>, fn: F)
    requires c.list.Some?
    ensures c.list.value == [] ==> RemoveFrom(c, fn, 0) == c
  {
  }

  lemma FiredFirst<F, A>(o: Options, c: Callbacks<F, A>, first: Option<A>, data: A)
    requires Single(o, c, first)
    ensures if c.fired then first.Some? else AllAre(c.fires, Some(data))
  {
    if c.fired { assert first == Some(c.fires[0]); }
  }

  lemma NowSingle<F, A>(o: Options, c: Callbacks<F, A>, first: Option<A>, data: A)
    requires Single(o, c, first) && c.list.Some? && !c.fired
    ensures first.None? && Single(o, Fire(o, c, data), Some(data))
  {
    assert c.fires + [data] == [data];
  }

  lemma ReturnSingle<F, A>(o: Options, c: Callbacks<F, A>, first: Option<A>)
    requires Single(o, c, first) && c.firing
    ensures Single(o, Return(o, c), first)
  {
    hide AllAre;
  }

  function FirstFire<F, A>(events: seq<Event<F, A>>): Option<A> {
    if events == [] then None else FirstArgs(FirstFire(events[..|events| - 1]), events[|events| - 1])
  }

  /** A list that fires once takes the arguments of its first fire and no others, and keeps no function after a firing; without
      memory it fires once and is then disabled. */
  lemma {:induction false} FiresOnce<F(!new), A(!new)>(o: Options, events: seq<Event<F, A>>, c: Callbacks<F, A>)
    requires Reaches(o, events, c) && o.once
    ensures forall k :: 0 <= k < |c.fires| ==> FirstFire(events) == Some(c.fires[k])
    ensures !o.memory ==> |c.fires| <= 1 && (c.fired && !c.firing ==> c.list.None?)
    ensures c.fired && !c.firing ==> c.list == None || c.list == Some([])
    ensures Queued(c) == [] && Single(o, c, FirstFire(events))
    decreases |events|
  {
    hide Step, Enabled;
    if events != [] {
      var n := |events| - 1;
      var d :| Reaches(o, events[..n], d) && Enabled(d, events[n]) && c == Step(o, d, events[n]);
      FiresOnce(o, events[..n], d);
      StepSingle(o, d, events[n], FirstFire(events[..n]));
    }
  }
}

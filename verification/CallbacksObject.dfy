/** The callback list as an object: every method does to its variables what the function of the same name does to the list. */
module CallbacksObject {
  import opened Wrappers
  import opened CallbacksList
  import opened CallbacksCursor
  import opened CallbacksRuns
  import opened CallbacksTheorems

  /** The record of what happened. */
  datatype Trace<F, A> = Trace(next: nat, log: seq<Call<F, A>>, data: Option<A>, pass: seq<nat>, base: int, fires: seq<A>, broken: bool)

  class CallbackList<F(==), A> {
    const options: Options
    var list: Option<seq<Entry<F>>>
    var memory: Option<A>
    var fired: bool
    var firing: bool
    var firingStart: nat
    var firingLength: int
    var firingIndex: int
    var stack: Option<seq<A>>
    var trace: Trace<F, A>

    constructor (options: Options)
      ensures this.options == options && Now() == Fresh(options) && Inv(Now())
    {
      this.options := options;
      list, memory, fired, firing := Some([]), None, false, false;
      firingStart, firingLength, firingIndex := 0, 0, 0;
      stack := if options.once then None else Some([]);
      trace := Trace(0, [], None, [], 0, [], false);
      new;
      FreshInv<F, A>(options);
    }

    /** The state the variables make up. */
    function Now(): Callbacks<F, A>
      reads this
    {
      Callbacks(list, memory, fired, firing, firingStart, firingLength, firingIndex, stack,
                trace.next, trace.log, trace.data, trace.pass, trace.base, trace.fires, trace.broken)
    }

    // ----- firing

    /** The head of the loop. */
    method RunLoop()
      requires firing
      modifies this
      ensures Now() == Loop(options, old(Now()))
      decreases if stack.Some? then |stack.value| else 0, 0
    {
      hide CallbacksList.Fire;
      if list.Some? && firingIndex < firingLength {
        CallNext();
      } else {
        firing := false;
        if list.None? {
          return;
        }
        if stack.Some? {
          if stack.value != [] {
            var data := stack.value[0];
            stack := Some(stack.value[1..]);
            Fire(data);
          }
        } else if memory.Some? {
          list := Some([]);
        } else {
          SetDisabled();
        }
      }
    }

    method CallNext()
      requires list.Some?
      modifies `trace
      ensures var c := old(Now());
              Now() == if 0 <= c.firingIndex < |c.list.value| && c.data.Some? then
                         var e := c.list.value[c.firingIndex];
                         c.(log := c.log + [Call(e.fn, e.tag, c.data.value)], pass := c.pass + [e.tag])
                       else c.(broken := true)
    {
      if 0 <= firingIndex < |list.value| && trace.data.Some? {
        var e := list.value[firingIndex];
        trace := trace.(log := trace.log + [Call(e.fn, e.tag, trace.data.value)], pass := trace.pass + [e.tag]);
      } else {
        trace := trace.(broken := true);
      }
    }

    method Start(data: A)
      modifies `memory, `fired, `firingIndex, `firingStart, `firingLength, `firing, `trace
      ensures var c := old(Now());
              Now() == c.(memory := if options.memory then Some(data) else None, fired := true, firingIndex := c.firingStart, firingStart := 0,
                          firingLength := if c.list.Some? then |c.list.value| else 0, firing := true, data := Some(data), pass := [],
                          base := c.firingStart, fires := c.fires + [data])
    {
      memory := if options.memory then Some(data) else None;
      fired := true;
      firingIndex := firingStart;
      trace := trace.(data := Some(data), pass := [], base := firingStart, fires := trace.fires + [data]);
      firingStart := 0;
      firingLength := if list.Some? then |list.value| else 0;
      firing := true;
    }

    method Fire(data: A)
      modifies this
      ensures Now() == CallbacksList.Fire(options, old(Now()), data)
      decreases if stack.Some? then |stack.value| else 0, 1
    {
      hide Loop;
      Start(data);
      RunLoop();
    }

    method SetDisabled()
      modifies `list, `stack, `memory
      ensures Now() == CallbacksList.Disable(old(Now()))
    {
      list := None;
      stack := None;
      memory := None;
    }

    // ----- the methods

    method Add(fns: seq<F>)
      requires Inv(Now())
      modifies this
      ensures Now() == CallbacksList.Add(options, old(Now()), fns) && Inv(Now())
    {
      hide Inv, CallbacksList.Fire;
      AddInv(options, Now(), fns);
      if list.None? {
        return;
      }
      var start := |list.value|;
      PushAll(fns);
      if firing {
        firingLength := |list.value|;
      } else if memory.Some? {
        firingStart := start;
        Fire(memory.value);
      }
    }

    method PushAll(fns: seq<F>)
      requires list.Some?
      modifies `list, `trace
      ensures list.Some? && (list.value, trace.next) == Push(options, old(list.value), old(trace.next), fns)
      ensures trace == old(trace).(next := trace.next)
    {
      var i := 0;
      while i < |fns|
        invariant 0 <= i <= |fns| && list.Some? && trace == old(trace).(next := trace.next)
        invariant Push(options, list.value, trace.next, fns[i..]) == Push(options, old(list.value), old(trace.next), fns)
      {
        assert fns[i..][0] == fns[i] && fns[i..][1..] == fns[i + 1..];
        if !options.unique || !Has(list.value, fns[i]) {
          list := Some(list.value + [Entry(fns[i], trace.next)]);
          trace := trace.(next := trace.next + 1);
        }
        i := i + 1;
      }
    }

    method SpliceAt(k: nat)
      requires list.Some? && k < |list.value|
      modifies `list, `firingLength, `firingIndex, `trace
      ensures Now() == Splice(old(Now()), k)
    {
      list := Some(list.value[..k] + list.value[k + 1..]);
      if firing {
        if k <= firingLength {
          firingLength := firingLength - 1;
        }
        if k <= firingIndex {
          firingIndex := firingIndex - 1;
        }
        if k < trace.base {
          trace := trace.(base := trace.base - 1);
        }
      }
    }

    method Remove(fn: F)
      requires Inv(Now())
      modifies this
      ensures Now() == CallbacksList.Remove(old(Now()), fn) && Inv(Now())
      ensures old(list).Some? ==> list == Some(Without(old(list).value, fn))
    {
      hide Inv, Splice;
      RemoveInv(Now(), fn);
      if list.None? {
        return;
      }
      RemoveFromIs(Now(), fn, 0);
      RemoveAll(fn);
    }

    method RemoveAll(fn: F)
      requires list.Some?
      modifies `list, `firingLength, `firingIndex, `trace
      ensures Now() == RemoveFrom(old(Now()), fn, 0)
    {
      hide Splice;
      var index := InArray(fn, list.value, 0);
      if index > -1 { SpliceShorter(Now(), index); }
      while index > -1
        invariant list.Some?
        invariant index == -1 || (0 <= index < |list.value| && list.value[index].fn == fn)
        invariant if index == -1 then Now() == RemoveFrom(old(Now()), fn, 0)
                  else Splice(Now(), index).list.Some? && RemoveFrom(Splice(Now(), index), fn, index) == RemoveFrom(old(Now()), fn, 0)
        decreases if index > -1 then 1 + |list.value| else 0
      {
        ghost var before := Now();
        SpliceShorter(before, index);
        SpliceAt(index);
        index := InArray(fn, list.value, index);
        if index > -1 { SpliceShorter(Now(), index); }
      }
    }

    method Lock()
      requires Inv(Now())
      modifies `list, `stack, `memory
      ensures Now() == CallbacksList.Lock(old(Now())) && Inv(Now())
    {
      hide Inv;
      LockInv(Now());
      stack := None;
      if memory.None? {
        SetDisabled();
      }
    }

    method Disable()
      requires Inv(Now())
      modifies `list, `stack, `memory
      ensures Now() == CallbacksList.Disable(old(Now())) && Inv(Now())
    {
      hide Inv, CallbacksList.Disable;
      LockInv(Now());
      SetDisabled();
    }

    method FireWith(data: A)
      requires Inv(Now())
      modifies this
      ensures Now() == CallbacksList.FireWith(options, old(Now()), data) && Inv(Now())
    {
      hide Inv, CallbacksList.Fire;
      FireWithInv(options, Now(), data);
      if list.Some? && (!fired || stack.Some?) {
        if firing {
          if stack.Some? {
            stack := Some(stack.value + [data]);
          } else {
            trace := trace.(broken := true);
          }
        } else {
          Fire(data);
        }
      }
    }

    /** The running callback returns. */
    method Returned()
      requires Inv(Now()) && firing
      modifies this
      ensures Now() == Return(options, old(Now())) && Inv(Now())
    {
      hide Inv, Loop;
      ReturnInv(options, Now());
      firingIndex := firingIndex + 1;
      RunLoop();
    }
  }

  lemma SpliceShorter<F, A>(c: Callbacks<F, A>, k: nat)
    requires c.list.Some? && k < |c.list.value|
    ensures Splice(c, k).list.Some? && |Splice(c, k).list.value| == |c.list.value| - 1
  {
  }
}

/**
 * A callback list. A callback that is running may add, remove, empty, lock, disable and fire, so
 * its return is a step of its own.
 */
module CallbacksList {
  import opened Wrappers

  datatype Options = Options(once: bool, memory: bool, unique: bool)

  /** A function on the list. The tag tells registrations of one function apart. */
  datatype Entry<F> = Entry(fn: F, tag: nat)

  datatype Call<F, A> = Call(fn: F, tag: nat, data: A)

  /**
   * The variables of the closure, and a record of what happened: the number of registrations, every call, the
   * arguments of every firing that began, and for the one under way its arguments, the tags called in it, and where on
   * the list it began.
   */
  datatype Callbacks<F, A> = Callbacks(
    list: Option<seq<Entry<F>>>,
    memory: Option<A>,
    fired: bool,
    firing: bool,
    firingStart: nat,
    firingLength: int,
    firingIndex: int,
    stack: Option<seq<A>>,
    next: nat,
    log: seq<Call<F, A>>,
    data: Option<A>,
    pass: seq<nat>,
    base: int,
    fires: seq<A>,
    broken: bool)

  function Fresh<F, A>(o: Options): Callbacks<F, A> {
    Callbacks(Some([]), None, false, false, 0, 0, 0, if o.once then None else Some([]), 0, [], None, [], 0, [], false)
  }

  // ----- firing

  /** The head of the loop: the next call, or the end of the firing. */
  function Loop<F, A>(o: Options, c: Callbacks<F, A>): Callbacks<F, A>
    decreases if c.stack.Some? then |c.stack.value| else 0, 0
  {
    if c.list.Some? && c.firingIndex < c.firingLength then
      if 0 <= c.firingIndex < |c.list.value| && c.data.Some? then
        var e := c.list.value[c.firingIndex];
        c.(log := c.log + [Call(e.fn, e.tag, c.data.value)], pass := c.pass + [e.tag])
      else c.(broken := true)
    else
      var d := c.(firing := false);
      if d.list.None? then d
      else if d.stack.Some? then
        if d.stack.value != [] then Fire(o, d.(stack := Some(d.stack.value[1..])), d.stack.value[0]) else d
      else if d.memory.Some? then d.(list := Some([]))
      else Disable(d)
  }

  function Fire<F, A>(o: Options, c: Callbacks<F, A>, data: A): Callbacks<F, A>
    decreases if c.stack.Some? then |c.stack.value| else 0, 1
  {
    Loop(o, c.(memory := if o.memory then Some(data) else None, fired := true, firingIndex := c.firingStart, firingStart := 0,
               firingLength := if c.list.Some? then |c.list.value| else 0, firing := true, data := Some(data), pass := [], base := c.firingStart,
               fires := c.fires + [data]))
  }

  /** The running callback returns. */
  function Return<F, A>(o: Options, c: Callbacks<F, A>): Callbacks<F, A>
    requires c.firing
  {
    Loop(o, c.(firingIndex := c.firingIndex + 1))
  }

  // ----- the methods

  predicate Has<F(==)>(list: seq<Entry<F>>, fn: F) { exists k :: 0 <= k < |list| && list[k].fn == fn }

  /** The list with the functions appended, and the number of registrations after that. */
  function Push<F(==)>(o: Options, list: seq<Entry<F>>, next: nat, fns: seq<F>): (r: (seq<Entry<F>>, nat))
    decreases |fns|
  {
    if fns == [] then (list, next)
    else if o.unique && Has(list, fns[0]) then Push(o, list, next, fns[1..])
    else Push(o, list + [Entry(fns[0], next)], next + 1, fns[1..])
  }

  function Add<F(==), A>(o: Options, c: Callbacks<F, A>, fns: seq<F>): Callbacks<F, A> {
    if c.list.None? then c else
      var start := |c.list.value|;
      var (list, next) := Push(o, c.list.value, c.next, fns);
      var d := c.(list := Some(list), next := next);
      if d.firing then d.(firingLength := |list|)
      else if d.memory.Some? then Fire(o, d.(firingStart := start), d.memory.value)
      else d
  }

  /** The first place at or after `from` where the function is. */
  function InArray<F(==)>(fn: F, list: seq<Entry<F>>, from: nat): (k: int)
    ensures k == -1 || (from <= k < |list| && list[k].fn == fn)
    decreases |list| - from
  {
    if from >= |list| then -1 else if list[from].fn == fn then from else InArray(fn, list, from + 1)
  }

  function Splice<F(==), A>(c: Callbacks<F, A>, k: nat): Callbacks<F, A>
    requires c.list.Some? && k < |c.list.value|
  {
    var d := c.(list := Some(c.list.value[..k] + c.list.value[k + 1..]));
    if c.firing then
      d.(firingLength := if k <= c.firingLength then c.firingLength - 1 else c.firingLength,
         firingIndex := if k <= c.firingIndex then c.firingIndex - 1 else c.firingIndex,
         base := if k < c.base then c.base - 1 else c.base)
    else d
  }

  function RemoveFrom<F(==), A>(c: Callbacks<F, A>, fn: F, from: nat): Callbacks<F, A>
    requires c.list.Some?
    decreases |c.list.value|
  {
    var k := InArray(fn, c.list.value, from);
    if k == -1 then c else RemoveFrom(Splice(c, k), fn, k)
  }

  function Remove<F(==), A>(c: Callbacks<F, A>, fn: F): Callbacks<F, A> {
    if c.list.Some? then RemoveFrom(c, fn, 0) else c
  }

  function Empty<F, A>(c: Callbacks<F, A>): Callbacks<F, A> { c.(list := Some([]), firingLength := 0) }

  function Disable<F, A>(c: Callbacks<F, A>): Callbacks<F, A> { c.(list := None, stack := None, memory := None) }

  function Lock<F, A>(c: Callbacks<F, A>): Callbacks<F, A> {
    var d := c.(stack := None);
    if d.memory.None? then Disable(d) else d
  }

  function FireWith<F, A>(o: Options, c: Callbacks<F, A>, data: A): Callbacks<F, A> {
    if c.list.Some? && (!c.fired || c.stack.Some?) then
      if c.firing then
        if c.stack.Some? then c.(stack := Some(c.stack.value + [data])) else c.(broken := true)
      else Fire(o, c, data)
    else c
  }
}

/** Values, effects and the runtime container that both the reference interpreter and generated code use. */
module HandlebarsRuntime {
  import opened Wrappers
  import opened HandlebarsAst

  /** Everything outside the template that helpers and getters may read and change. */
  type World(!new, ==)

  datatype Value =
    | Undefined
    | Null
    | Bool(b: bool)
    | Num(text: string)
    | Str(s: string)
    | Obj(id: int)
    | Func(id: int)
    | HashV(entries: seq<(string, Value)>)

  /** Outcome of a computation: a value, a JavaScript exception, or `Stuck`, which marks the
      behaviours outside the model (an unescaped output piece that is not a string). */
  datatype Res<+T> = Ok(w: World, v: T) | Threw(w: World, error: Value) | Stuck
  {
    predicate IsFailure() { !Ok? }
    function PropagateFailure<U>(): Res<U>
      requires !Ok?
    {
      match this
      case Threw(w, e) => Threw(w, e)
      case _ => Stuck
    }
    function Extract(): (World, T)
      requires Ok?
    {
      (w, v)
    }
  }

  /** `options.fn` and `options.inverse`: take a context and possibly a data frame. */
  type Den = (World, Value, Option<Value>) -> Res<Value>

  datatype HelperOptions = HelperOptions(name: string, hash: Value, fn: Option<Den>, inverse: Option<Den>, data: Value)

  /** The parts of the environment a template cannot see into.  Reading a property may run a getter; data frames are plain
      objects, and `parent` is their property `_parent`. */
  datatype Runtime = Runtime(
    helper: string -> Value,
    property: (World, Value, string) -> Res<Value>,
    parent: (World, Value) -> Value,
    call: (World, Value, Value, seq<Value>, HelperOptions) -> Res<Value>,
    apply: (World, Value, Value) -> Res<Value>,
    escape: (World, Value) -> Res<string>,
    plus: (Value, Value) -> Value)

  const TYPE_ERROR := Str("TypeError")
  const REFERENCE_ERROR := Str("ReferenceError")

  predicate Nullish(v: Value) { v.Undefined? || v.Null? }

  predicate Truthy(v: Value) {
    match v
    case Undefined => false
    case Null => false
    case Bool(b) => b
    case Num(t) => t != "0" && t != "NaN"
    case Str(s) => s != ""
    case _ => true
  }

  /** JavaScript `+`; only the string case is fixed here. */
  function Plus(rt: Runtime, a: Value, b: Value): Value {
    if a.Str? && b.Str? then Str(a.s + b.s) else rt.plus(a, b)
  }

  /** The container's `data(value, depth)`: follow `_parent` while the frame is truthy. */
  function DataAt(rt: Runtime, w: World, data: Value, depth: nat): Value
    decreases depth
  {
    if depth == 0 || !Truthy(data) then data else DataAt(rt, w, rt.parent(w, data), depth - 1)
  }

  /** The container's `lambda(current, context)`. */
  function Lambda(rt: Runtime, w: World, v: Value, ctx: Value): Res<Value> {
    if v.Func? then rt.apply(w, v, ctx) else Ok(w, v)
  }


  function NoopDen(): Den {
    (w, c, d) => Ok(w, Str(""))
  }

  /** When one of program and inverse is present the other is filled with `noop`. */
  function FnPair(p: Option<Den>, i: Option<Den>): (Option<Den>, Option<Den>) {
    if p.None? && i.None? then (None, None)
    else (Some(p.GetOr(NoopDen())), Some(i.GetOr(NoopDen())))
  }

  // ----- what a helper may do with `options.fn`

  /** `b` is the outcome `a`, unless `a` is outside the model. */
  ghost predicate ResLeq<T(!new)>(a: Res<T>, b: Res<T>) { a.Stuck? || a == b }

  ghost predicate DenLeq(a: Den, b: Den) {
    forall w, c, d :: ResLeq(a(w, c, d), b(w, c, d))
  }

  ghost predicate OptDenLeq(a: Option<Den>, b: Option<Den>) {
    match (a, b)
    case (None, None) => true
    case (Some(x), Some(y)) => DenLeq(x, y)
    case _ => false
  }

  ghost predicate OptionsLeq(a: HelperOptions, b: HelperOptions) {
    a.name == b.name && a.hash == b.hash && a.data == b.data && OptDenLeq(a.fn, b.fn) && OptDenLeq(a.inverse, b.inverse)
  }

  /** A helper can run `options.fn` and `options.inverse` but not look inside them: given programs that behave alike it
      behaves alike, and one that is handed an outcome outside the model may itself be outside the model. */
  ghost predicate Monotone(rt: Runtime) {
    forall w, f, t, args, a, b {:trigger rt.call(w, f, t, args, a), rt.call(w, f, t, args, b)} ::
      OptionsLeq(a, b) ==> ResLeq(rt.call(w, f, t, args, a), rt.call(w, f, t, args, b))
  }
}

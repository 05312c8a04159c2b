/** The fragment of JavaScript that compiled templates are made of, with its evaluator.  Names of properties and helpers are
    what is read where they were written; where that is no name the text means something else or nothing at all. */
module HandlebarsTarget {
  import opened Wrappers
  import opened HandlebarsHash
  import opened HandlebarsNames
  import opened HandlebarsAst
  import opened HandlebarsRuntime

  /** `this.program(index, data, ...)`; `passDepths` says whether the chain of contexts is handed on. */
  datatype ProgRef = ProgRef(index: nat, passDepths: bool)

  datatype JExpr =
    | JContext(depth: nat, viaDepths: bool)      // depth0, or depths[n]; without depths, the undeclared depthN
    | JData(depth: nat)                          // data, or this.data(data, n)
    | JStr(text: string)
    | JNum(text: string)
    | JBool(b: bool)
    | JUndefined
    | JNull                                      // the compiler's own null, for a program that is not there
    | JWord(word: Word)
    | JObject(pairs: seq<JPair>)
    | JProgram(prog: ProgRef)
    | JTemp(n: nat)                              // stackN
    | JSetTemp(n: nat, e: JExpr)                 // (stackN = e)
    | JGet(e: JExpr, name: string)               // e.name or e['name']
    | JHelperNamed(name: string)                 // helpers.name or helpers['name']
    | JIfNotNull(test: JExpr, thn: JExpr, els: JExpr)   // (test != null ? thn : els)
    | JAnd(a: JExpr, c: JExpr)
    | JOr(a: JExpr, c: JExpr)
    | JLambda(e: JExpr)                          // this.lambda(e, depth0)
    | JEscape(e: JExpr)                          // this.escapeExpression(e)
    | JHelperVar                                 // the `helper` register
    | JSetHelperVar(e: JExpr)
    | JSetOptions(o: JOptions)                   // options = {...}
    | JComma(a: JExpr, c: JExpr)
    | JIfFunction(test: JExpr, thn: JExpr, els: JExpr)
    | JCall(callee: JExpr, args: seq<JExpr>, options: JOptionsArg)

  /** A word of the language, as text. */
  datatype Word = TrueWord | NullWord

  type JPair = Keyed<JExpr>
  datatype JFn = Absent | Noop | FnExpr(e: JExpr)
  datatype JOptions = JOptions(name: string, hash: JExpr, fn: JFn, inverse: JFn)
  datatype JOptionsArg = Inline(o: JOptions) | Register

  /** One emitted line: an append, which merging may join to its neighbours, or a statement. */
  datatype Line = Append(e: JExpr) | Exec(s: JStmt)

  datatype JStmt =
    | SetTemp(n: nat, e: JExpr)                            // stackN = e;
    | IfNoHelper(name: string, n: nat, call: JExpr)        // if (!helpers.name) { stackN = call }
    | IfNotNullAppend(e: JExpr)                            // if (e != null) { buffer += e; }
    | IfNotNullReturn(e: JExpr)                            // if (e != null) { return e; }
    | ElseReturnEmpty                                      // else { return ''; }, always right after the previous form
    | ReturnValue(e: JExpr)                                // return e;

  /** A function body after merging. */
  datatype BodyStmt =
    | InitBuffer(es: seq<JExpr>)          // var ..., buffer = a + b;
    | AddBuffer(es: seq<JExpr>)           // buffer += a + b;
    | Plain(s: JStmt)
    | ReturnSum(es: seq<JExpr>)           // return a + b;
    | ReturnBufferPlus(es: seq<JExpr>)    // return buffer + a + b;

  datatype Frame = Frame(ctx: Value, data: Value, depths: Option<seq<Value>>, prog: ProgRef -> Den)

  /** The locals of one activation.  A temporary that was never assigned is undefined. */
  datatype Store = Store(w: World, temps: map<nat, Value>, helper: Value, options: Option<HelperOptions>)

  function Temp(s: Store, n: nat): Value {
    if n in s.temps then s.temps[n] else Undefined
  }

  datatype Out<+T> = Done(s: Store, v: T) | Fail(w: World, error: Value) | OutStuck
  {
    predicate IsFailure() { !Done? }
    function PropagateFailure<U>(): Out<U>
      requires !Done?
    {
      match this
      case Fail(w, e) => Fail(w, e)
      case _ => OutStuck
    }
    function Extract(): (Store, T)
      requires Done?
    {
      (s, v)
    }
  }

  function Lift<T>(s: Store, r: Res<T>): Out<T> {
    match r
    case Ok(w, v) => Done(s.(w := w), v)
    case Threw(w, e) => Fail(w, e)
    case Stuck => OutStuck
  }

  function Eval(rt: Runtime, fr: Frame, e: JExpr, s: Store): Out<Value>
    decreases e, 0
  {
    match e
    case JContext(d, via) =>
      if d == 0 then Done(s, fr.ctx)
      else if !via || fr.depths.None? then Fail(s.w, REFERENCE_ERROR)
      else Done(s, if d < |fr.depths.value| then fr.depths.value[d] else Undefined)
    case JData(d) => Done(s, DataAt(rt, s.w, fr.data, d))
    case JStr(t) => Done(s, Str(t))
    case JNum(t) => Done(s, Num(t))
    case JBool(b) => Done(s, Bool(b))
    case JUndefined => Done(s, Undefined)
    case JNull => Done(s, Null)
    case JWord(TrueWord) => Done(s, Bool(true))
    case JWord(NullWord) => Done(s, Null)
    case JObject(ps) =>
      var (s1, vs) :- EvalPairs(rt, fr, ps, s);
      Done(s1, HashV(vs))
    case JProgram(_) => OutStuck                      // only ever the value of `fn` or `inverse`
    case JTemp(n) => Done(s, Temp(s, n))
    case JSetTemp(n, a) =>
      var (s1, v) :- Eval(rt, fr, a, s);
      Done(s1.(temps := s1.temps[n := v]), v)
    case JGet(a, name) =>
      var (s1, v) :- Eval(rt, fr, a, s);
      if Named(name).None? then OutStuck
      else if Nullish(v) then Fail(s1.w, TYPE_ERROR)
      else Lift(s1, rt.property(s1.w, v, Named(name).value))
    case JHelperNamed(name) => if Named(name).None? then OutStuck else Done(s, rt.helper(Named(name).value))
    case JIfNotNull(t, a, b) =>
      var (s1, v) :- Eval(rt, fr, t, s);
      if Nullish(v) then Eval(rt, fr, b, s1) else Eval(rt, fr, a, s1)
    case JAnd(a, b) =>
      var (s1, v) :- Eval(rt, fr, a, s);
      if Truthy(v) then Eval(rt, fr, b, s1) else Done(s1, v)
    case JOr(a, b) =>
      var (s1, v) :- Eval(rt, fr, a, s);
      if Truthy(v) then Done(s1, v) else Eval(rt, fr, b, s1)
    case JLambda(a) =>
      var (s1, v) :- Eval(rt, fr, a, s);
      Lift(s1, Lambda(rt, s1.w, v, fr.ctx))
    case JEscape(a) =>
      var (s1, v) :- Eval(rt, fr, a, s);
      var (s2, t) :- Lift(s1, rt.escape(s1.w, v));
      Done(s2, Str(t))
    case JHelperVar => Done(s, s.helper)
    case JSetHelperVar(a) =>
      var (s1, v) :- Eval(rt, fr, a, s);
      Done(s1.(helper := v), v)
    case JSetOptions(o) =>
      var (s1, ho) :- EvalOptions(rt, fr, o, s);
      Done(s1.(options := Some(ho)), Undefined)       // the value of this operand of `,` is discarded
    case JComma(a, b) =>
      var (s1, _) :- Eval(rt, fr, a, s);
      Eval(rt, fr, b, s1)
    case JIfFunction(t, a, b) =>
      var (s1, v) :- Eval(rt, fr, t, s);
      if v.Func? then Eval(rt, fr, a, s1) else Eval(rt, fr, b, s1)
    case JCall(callee, args, oa) =>
      var (s1, f) :- Eval(rt, fr, callee, s);
      if Nullish(f) then Fail(s1.w, TYPE_ERROR)
      else
        var (s2, vs) :- EvalAll(rt, fr, args, s1);
        var (s3, ho) :- EvalOptionsArg(rt, fr, oa, s2);
        Lift(s3, rt.call(s3.w, f, fr.ctx, vs, ho))
  }

  function EvalAll(rt: Runtime, fr: Frame, es: seq<JExpr>, s: Store): Out<seq<Value>>
    decreases es, 0
  {
    if es == [] then Done(s, [])
    else
      var (s1, v) :- Eval(rt, fr, es[0], s);
      var (s2, vs) :- EvalAll(rt, fr, es[1..], s1);
      Done(s2, [v] + vs)
  }

  function EvalPairs(rt: Runtime, fr: Frame, ps: seq<JPair>, s: Store): Out<seq<(string, Value)>>
    decreases ps, 0
  {
    if ps == [] then Done(s, [])
    else
      var (s1, v) :- Eval(rt, fr, ps[0].value, s);
      var (s2, vs) :- EvalPairs(rt, fr, ps[1..], s1);
      Done(s2, [(ps[0].key, v)] + vs)
  }

  /** `fn` and `inverse` are absent, the container's `noop`, or a program; nothing else is in the fragment. */
  function FnValue(fr: Frame, f: JFn): Option<Option<Den>> {
    match f
    case Absent => Some(None)
    case Noop => Some(Some(NoopDen()))
    case FnExpr(JProgram(p)) => Some(Some(fr.prog(p)))
    case _ => None
  }

  function EvalOptions(rt: Runtime, fr: Frame, o: JOptions, s: Store): Out<HelperOptions>
    decreases o, 1
  {
    var (s1, h) :- Eval(rt, fr, o.hash, s);
    match (FnValue(fr, o.fn), FnValue(fr, o.inverse))
    case (Some(f), Some(i)) => Done(s1, HelperOptions(o.name, h, f, i, fr.data))
    case _ => OutStuck
  }

  function EvalOptionsArg(rt: Runtime, fr: Frame, oa: JOptionsArg, s: Store): Out<HelperOptions>
    decreases oa, 1
  {
    match oa
    case Inline(o) => EvalOptions(rt, fr, o, s)
    case Register => if s.options.Some? then Done(s, s.options.value) else OutStuck
  }

  // ----- emitted lines, read one by one: what the program prints before any merging

  /** The text printed so far is `out`; an unescaped piece must be a string. */
  function ExecLines(rt: Runtime, fr: Frame, ls: seq<Line>, s: Store, out: string): Out<Value>
    decreases |ls|
  {
    if ls == [] then Done(s, Str(out))
    else
      match ls[0]
      case Append(e) =>
        var (s1, v) :- Eval(rt, fr, e, s);
        if v.Str? then ExecLines(rt, fr, ls[1..], s1, out + v.s) else OutStuck
      case Exec(SetTemp(n, e)) =>
        var (s1, v) :- Eval(rt, fr, e, s);
        ExecLines(rt, fr, ls[1..], s1.(temps := s1.temps[n := v]), out)
      case Exec(IfNoHelper(name, n, call)) =>
        if Named(name).None? then OutStuck
        else if Truthy(rt.helper(Named(name).value)) then ExecLines(rt, fr, ls[1..], s, out)
        else
          var (s1, v) :- Eval(rt, fr, call, s);
          ExecLines(rt, fr, ls[1..], s1.(temps := s1.temps[n := v]), out)
      case Exec(IfNotNullAppend(e)) =>
        var (s1, v) :- Eval(rt, fr, e, s);
        if Nullish(v) then ExecLines(rt, fr, ls[1..], s1, out)
        else
          var (s2, u) :- Eval(rt, fr, e, s1);
          if u.Str? then ExecLines(rt, fr, ls[1..], s2, out + u.s) else OutStuck
      case Exec(IfNotNullReturn(e)) =>
        var (s1, v) :- Eval(rt, fr, e, s);
        if Nullish(v) then ExecLines(rt, fr, ls[1..], s1, out) else Eval(rt, fr, e, s1)
      case Exec(ElseReturnEmpty) => Done(s, Str(""))
      case Exec(ReturnValue(e)) => Eval(rt, fr, e, s)
  }

  // ----- merged bodies

  /** `a + b + c`, left to right. */
  function EvalSum(rt: Runtime, fr: Frame, es: seq<JExpr>, acc: Value, s: Store): Out<Value>
    decreases |es|
  {
    if es == [] then Done(s, acc)
    else
      var (s1, v) :- Eval(rt, fr, es[0], s);
      EvalSum(rt, fr, es[1..], Plus(rt, acc, v), s1)
  }

  function EvalSum1(rt: Runtime, fr: Frame, es: seq<JExpr>, s: Store): Out<Value> {
    if es == [] then OutStuck     // no such source text
    else
      var (s1, v) :- Eval(rt, fr, es[0], s);
      EvalSum(rt, fr, es[1..], v, s1)
  }

  /** `buffer` is the variable of that name; it is read only by the statements that mention it. */
  function ExecBody(rt: Runtime, fr: Frame, b: seq<BodyStmt>, s: Store, buffer: Value): Out<Value>
    decreases |b|
  {
    if b == [] then Done(s, Undefined)
    else
      match b[0]
      case InitBuffer(es) =>
        var (s1, v) :- EvalSum1(rt, fr, es, s);
        ExecBody(rt, fr, b[1..], s1, v)
      case AddBuffer(es) =>
        var (s1, v) :- EvalSum1(rt, fr, es, s);
        ExecBody(rt, fr, b[1..], s1, Plus(rt, buffer, v))
      case ReturnSum(es) => EvalSum1(rt, fr, es, s)
      case ReturnBufferPlus(es) => EvalSum(rt, fr, es, buffer, s)
      case Plain(SetTemp(n, e)) =>
        var (s1, v) :- Eval(rt, fr, e, s);
        ExecBody(rt, fr, b[1..], s1.(temps := s1.temps[n := v]), buffer)
      case Plain(IfNoHelper(name, n, call)) =>
        if Named(name).None? then OutStuck
        else if Truthy(rt.helper(Named(name).value)) then ExecBody(rt, fr, b[1..], s, buffer)
        else
          var (s1, v) :- Eval(rt, fr, call, s);
          ExecBody(rt, fr, b[1..], s1.(temps := s1.temps[n := v]), buffer)
      case Plain(IfNotNullAppend(e)) =>
        var (s1, v) :- Eval(rt, fr, e, s);
        if Nullish(v) then ExecBody(rt, fr, b[1..], s1, buffer)
        else
          var (s2, u) :- Eval(rt, fr, e, s1);
          ExecBody(rt, fr, b[1..], s2, Plus(rt, buffer, u))
      case Plain(IfNotNullReturn(e)) =>
        var (s1, v) :- Eval(rt, fr, e, s);
        if Nullish(v) then ExecBody(rt, fr, b[1..], s1, buffer) else Eval(rt, fr, e, s1)
      case Plain(ElseReturnEmpty) => Done(s, Str(""))
      case Plain(ReturnValue(e)) => Eval(rt, fr, e, s)
  }
}

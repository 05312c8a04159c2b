/** The reference meaning of a template: a direct interpreter of the syntax tree.
    Nothing here mentions opcodes, stacks, temporaries or buffers. */
module HandlebarsInterp {
  import opened Wrappers
  import opened HandlebarsHash
  import opened HandlebarsAst
  import opened HandlebarsRuntime

  /** What a program sees when it runs: its context, data frame, chain of contexts, and a meaning for child programs. */
  datatype Env = Env(ctx: Value, data: Value, depths: seq<Value>, prog: Program -> Den)

  function ContextAt(env: Env, depth: nat): Value {
    if depth == 0 then env.ctx
    else if depth < |env.depths| then env.depths[depth]
    else Undefined
  }

  /** One lookup.  A falsy-safe path stops at any falsy value, the others only at null or undefined. */
  function Lookup(rt: Runtime, w: World, v: Value, name: string, falsy: bool): Res<Value> {
    if (if falsy then Truthy(v) else !Nullish(v)) then rt.property(w, v, name) else Ok(w, v)
  }

  function LookupAll(rt: Runtime, w: World, v: Value, parts: seq<string>, falsy: bool): Res<Value>
    decreases |parts|
  {
    if parts == [] then Ok(w, v)
    else
      var (w1, v1) :- Lookup(rt, w, v, parts[0], falsy);
      LookupAll(rt, w1, v1, parts[1..], falsy)
  }

  function InterpPath(rt: Runtime, env: Env, p: Path, falsy: bool, w: World): Res<Value> {
    if NoName(p) then Ok(w, ContextAt(env, p.depth))
    else if p.data then LookupAll(rt, w, DataAt(rt, w, env.data, p.depth), p.parts, true)
    else LookupAll(rt, w, ContextAt(env, p.depth), p.parts, falsy)
  }

  function InterpExpr(rt: Runtime, o: Options, env: Env, e: Expr, w: World): Res<Value>
    decreases e, 0
  {
    match e
    case PathE(p) => InterpPath(rt, env, p, false, w)
    case StringE(t) => Ok(w, Str(t))
    case NumberE(t) => Ok(w, Num(t))
    case BooleanE(b) => Ok(w, Bool(b))
    case UndefinedE => Ok(w, Undefined)
    case NullE => Ok(w, Null)
    case SubE(s) => InterpSexpr(rt, o, env, s, true, None, None, w)
  }

  function InterpParams(rt: Runtime, o: Options, env: Env, es: seq<Expr>, w: World): Res<seq<Value>>
    decreases es, 0
  {
    if es == [] then Ok(w, [])
    else
      var (w1, v) :- InterpExpr(rt, o, env, es[0], w);
      var (w2, vs) :- InterpParams(rt, o, env, es[1..], w1);
      Ok(w2, [v] + vs)
  }

  /** The pairs that a helper gets, by their places in the template, in the order of evaluation: what assigning the pairs to an
      array makes of them, last pair first. */
  function KeptFrom(ps: seq<Pair>, from: nat): seq<Keyed<nat>>
    decreases |ps| - from
  {
    if from >= |ps| then [] else Put(KeptFrom(ps, from + 1), ps[from].key, from, LengthOf(ps[from].value).GetOr(0))
  }

  predicate Places(ks: seq<Keyed<nat>>, ps: seq<Pair>) { forall k :: 0 <= k < |ks| ==> ks[k].value < |ps| }

  lemma {:induction false} KeptPlaces(ps: seq<Pair>, from: nat)
    ensures Places(KeptFrom(ps, from), ps)
    decreases |ps| - from
  {
    hide Put;
    if from < |ps| {
      KeptPlaces(ps, from + 1);
      var rest, ks := KeptFrom(ps, from + 1), KeptFrom(ps, from);
      PutValues(rest, ps[from].key, from, LengthOf(ps[from].value).GetOr(0));
      forall k | 0 <= k < |ks| ensures ks[k].value < |ps| { assert ks[k] in ks; }
    }
  }

  /** An `undefined` literal is left out of the object. */
  function InterpPairs(rt: Runtime, o: Options, env: Env, ps: seq<Pair>, ks: seq<Keyed<nat>>, w: World): Res<seq<(string, Value)>>
    requires Places(ks, ps)
    decreases ps, 0, |ks|
  {
    if ks == [] then Ok(w, [])
    else
      var e := ps[ks[0].value].value;
      if e.UndefinedE? then InterpPairs(rt, o, env, ps, ks[1..], w)
      else
        var (w1, v) :- InterpExpr(rt, o, env, e, w);
        var (w2, vs) :- InterpPairs(rt, o, env, ps, ks[1..], w1);
        Ok(w2, [(ks[0].key, v)] + vs)
  }

  function InterpHash(rt: Runtime, o: Options, env: Env, h: Hash, w: World): Res<Value>
    decreases h, 1
  {
    match h
    case NoHash => Ok(w, HashV([]))
    case Hash(ps) =>
      KeptPlaces(ps, 0);
      var (w1, vs) :- InterpPairs(rt, o, env, ps, KeptFrom(ps, 0), w);
      Ok(w1, HashV(vs))
  }

  /** The function a helper expression calls: the helper of that name, else the path, else `helperMissing`. */
  function HelperCallee(rt: Runtime, o: Options, env: Env, p: Path, w: World): Res<Value> {
    if KnownHelper(p, o) then Ok(w, rt.helper(p.parts[0]))
    else if SimpleId(p) && Truthy(rt.helper(p.original)) then Ok(w, rt.helper(p.original))
    else
      var (w1, v) :- InterpPath(rt, env, p, true, w);
      Ok(w1, if Truthy(v) then v else rt.helper("helperMissing"))
  }

  function HelperName(p: Path, o: Options): string {
    if KnownHelper(p, o) then p.parts[0] else p.original
  }

  function MakeOptions(name: string, hash: Value, fn: Option<Den>, inverse: Option<Den>, data: Value): HelperOptions {
    var (f, i) := FnPair(fn, inverse);
    HelperOptions(name, hash, f, i, data)
  }

  function HelperOrField(rt: Runtime, env: Env, p: Path, w: World): Res<Value>
    requires p.parts != []
  {
    if Truthy(rt.helper(p.parts[0])) then Ok(w, rt.helper(p.parts[0])) else InterpPath(rt, env, p, false, w)
  }

  /** A mustache that may be a helper or a field: a function is called without arguments, anything else is the value. */
  function InterpAmbiguous(rt: Runtime, env: Env, p: Path, fn: Option<Den>, inverse: Option<Den>, w: World): Res<Value>
    requires p.parts != []
  {
    var (w1, found) :- HelperOrField(rt, env, p, w);
    var h := if Nullish(found) then rt.helper("helperMissing") else found;
    if h.Func? then rt.call(w1, h, env.ctx, [], MakeOptions(p.parts[0], HashV([]), fn, inverse, env.data))
    else Ok(w1, h)
  }

  function InterpSexpr(rt: Runtime, o: Options, env: Env, s: Sexpr, isSub: bool, fn: Option<Den>, inverse: Option<Den>, w: World): Res<Value>
    decreases s, 1
  {
    var p := CalleePath(s.callee);
    match Classify(s, isSub, o)
    case Simple =>
      var (w1, v) :- InterpPath(rt, env, p, false, w);
      Lambda(rt, w1, v, env.ctx)
    case Ambiguous => InterpAmbiguous(rt, env, p, fn, inverse, w)
    case Helper =>
      var (w1, f) :- HelperCallee(rt, o, env, p, w);
      if Nullish(f) then Threw(w1, TYPE_ERROR)
      else
        var (w2, vs) :- InterpParams(rt, o, env, s.params, w1);
        var (w3, h) :- InterpHash(rt, o, env, s.hash, w2);
        rt.call(w3, f, env.ctx, vs, MakeOptions(HelperName(p, o), h, fn, inverse, env.data))
  }

  function BlockHelperMissing(rt: Runtime, env: Env, v: Value, ho: HelperOptions, w: World): Res<Value> {
    var f := rt.helper("blockHelperMissing");
    if Nullish(f) then Threw(w, TYPE_ERROR) else rt.call(w, f, env.ctx, [v], ho)
  }

  function ProgDen(env: Env, p: Option<Program>): Option<Den> {
    match p
    case None => None
    case Some(q) => Some(env.prog(q))
  }

  /** A block whose name is not a helper hands the resolved value to `blockHelperMissing`. */
  function InterpBlock(rt: Runtime, o: Options, env: Env, s: Sexpr, program: Option<Program>, inverse: Option<Program>, w: World): Res<Value> {
    var p := CalleePath(s.callee);
    var fn := ProgDen(env, program);
    var inv := ProgDen(env, inverse);
    match Classify(s, false, o)
    case Helper => InterpSexpr(rt, o, env, s, false, fn, inv, w)
    case Simple =>
      var f := rt.helper("blockHelperMissing");
      if Nullish(f) then Threw(w, TYPE_ERROR)
      else
        var (w1, v) :- InterpSexpr(rt, o, env, s, false, fn, inv, w);
        rt.call(w1, f, env.ctx, [v], MakeOptions(p.original, HashV([]), fn, inv, env.data))
    case Ambiguous =>
      var (w1, v) :- InterpSexpr(rt, o, env, s, false, fn, inv, w);
      if Truthy(rt.helper(p.parts[0])) then Ok(w1, v)
      else BlockHelperMissing(rt, env, v, MakeOptions(p.parts[0], HashV([]), fn, inv, env.data), w1)
  }

  /** An unescaped piece: nothing for null and undefined, and strings as they are. */
  function Piece(w: World, v: Value): Res<string> {
    if Nullish(v) then Ok(w, "") else if v.Str? then Ok(w, v.s) else Stuck
  }

  function InterpStmt(rt: Runtime, o: Options, env: Env, s: Stmt, w: World): Res<string> {
    match s
    case Content(t) => Ok(w, t)
    case Comment => Ok(w, "")
    case Mustache(e, escaped) =>
      var (w1, v) :- InterpSexpr(rt, o, env, e, false, None, None, w);
      if escaped && !o.noEscape then rt.escape(w1, v) else Piece(w1, v)
    case Block(e, p, i) =>
      var (w1, v) :- InterpBlock(rt, o, env, e, p, i, w);
      Piece(w1, v)
  }

  function InterpBody(rt: Runtime, o: Options, env: Env, body: seq<Stmt>, w: World): Res<string> {
    if body == [] then Ok(w, "")
    else
      var (w1, t) :- InterpStmt(rt, o, env, body[0], w);
      var (w2, u) :- InterpBody(rt, o, env, body[1..], w1);
      Ok(w2, t + u)
  }
}

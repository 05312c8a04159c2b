/** Generated expressions compute what the reference interpreter computes, whatever the temporaries hold,
    and never overwrite a temporary that is in use underneath them. */
module HandlebarsExprs {
  import opened Sequences
  import opened Wrappers
  import opened HandlebarsHash
  import opened HandlebarsNames
  import opened HandlebarsAst
  import opened HandlebarsRuntime
  import opened HandlebarsInterp
  import opened HandlebarsOpcodes
  import opened HandlebarsTarget
  import opened HandlebarsMachine
  import opened HandlebarsTranslate

  // ----- templates covered: the names that are written are read back

  /** Nothing is looked up on a path without a name. */
  predicate WfPath(p: Path) { NoName(p) || forall k :: 0 <= k < |p.parts| ==> Readable(p.parts[k]) }

  predicate WfExpr(e: Expr, o: Options)
    decreases e, 0
  {
    match e
    case PathE(p) => WfPath(p)
    case SubE(s) => WfSexpr(s, true, o)
    case _ => true
  }

  predicate WfSexpr(s: Sexpr, isSub: bool, o: Options)
    decreases s, 1
  {
    var p := CalleePath(s.callee);
    match Classify(s, isSub, o)
    case Helper => WfCallee(p, o) && WfArguments(s, o)
    case _ => WfPath(p)
  }

  predicate WfCallee(p: Path, o: Options) {
    if KnownHelper(p, o) then Readable(p.parts[0]) else WfPath(p) && (SimpleId(p) ==> Readable(p.original))
  }

  predicate WfArguments(s: Sexpr, o: Options)
    decreases s, 0
  {
    (forall i :: 0 <= i < |s.params| ==> WfExpr(s.params[i], o)) &&
    (s.hash.Hash? ==> forall i :: 0 <= i < |s.hash.pairs| ==> WfExpr(s.hash.pairs[i].value, o))
  }

  // ----- simulation

  /** Temporaries up to `slot` and the registers are as before. */
  ghost predicate Keeps(slot: nat, s: Store, s': Store) {
    (forall n: nat :: n <= slot ==> Temp(s', n) == Temp(s, n)) &&
    s'.helper == s.helper && s'.options == s.options
  }

  /** The generated code does what the interpreter does, unless the latter is outside the model. */
  ghost predicate Sim<T(!new)>(slot: nat, s: Store, r: Res<T>, out: Out<T>) {
    match r
    case Ok(w, v) => out.Done? && out.v == v && out.s.w == w && Keeps(slot, s, out.s)
    case Threw(w, e) => out == Fail(w, e)
    case Stuck => true
  }

  /** The compiled frame shows the same context, data and, where used, contexts further out. */
  ghost predicate SameView(cc: Setting, env: Env, fr: Frame) {
    fr.ctx == env.ctx && fr.data == env.data && (cc.useDepths ==> fr.depths == Some(env.depths))
  }

  predicate DefaultOptions(o: Options) { !o.trackIds && !o.stringParams }

  lemma ViewIs(cc: Setting, env: Env, fr: Frame)
    requires SameView(cc, env, fr)
    ensures fr.ctx == env.ctx && fr.data == env.data
  {
  }

  /** `fn` is the expression pushed for a program whose meaning is `den`. */
  ghost predicate FnIs(fr: Frame, fn: JExpr, den: Option<Den>) {
    match fn
    case JNull => den.None?
    case JProgram(p) => den.Some? && DenLeq(den.value, fr.prog(p))
    case _ => false
  }

  /** As `Sim`, for options objects, whose programs need only behave alike. */
  ghost predicate SimOptions(slot: nat, s: Store, r: Res<HelperOptions>, out: Out<HelperOptions>) {
    match r
    case Ok(w, v) => out.Done? && OptionsLeq(v, out.v) && out.s.w == w && Keeps(slot, s, out.s)
    case Threw(w, e) => out == Fail(w, e)
    case Stuck => true
  }

  // ----- paths

  lemma LiteralContext(cc: Setting, rt: Runtime, env: Env, fr: Frame, depth: nat, s: Store)
    requires SameView(cc, env, fr) && (depth != 0 ==> cc.useDepths)
    ensures Eval(rt, fr, ContextExpr(cc, depth), s) == Done(s, ContextAt(env, depth))
  {
    hide Named;
  }

  lemma LiteralData(rt: Runtime, fr: Frame, depth: nat, s: Store)
    ensures Eval(rt, fr, JData(depth), s) == Done(s, DataAt(rt, s.w, fr.data, depth))
  {
    hide Named;
  }

  /** The lookups that follow once the value looked into is there. */
  function LookupFrom(rt: Runtime, r: Res<Value>, parts: seq<string>, falsy: bool): Res<Value> {
    var (w, v) :- r;
    LookupAll(rt, w, v, parts, falsy)
  }

  function LookupOne(rt: Runtime, r: Res<Value>, name: string, falsy: bool): Res<Value> {
    var (w, v) :- r;
    Lookup(rt, w, v, name, falsy)
  }

  lemma {:induction false} PartsCorrect(rt: Runtime, fr: Frame, top: Entry, r: Res<Value>, parts: seq<string>, falsy: bool, slot: nat, s: Store)
    requires Sim(slot, s, r, Eval(rt, fr, top.e, s))
    requires top.Lit? ==> r.Ok? && r.w == s.w && Eval(rt, fr, top.e, s) == Done(s, r.v)
    requires forall k :: 0 <= k < |parts| ==> Readable(parts[k])
    ensures Sim(slot, s, LookupFrom(rt, r, parts, falsy), Eval(rt, fr, TParts(top, parts, falsy, slot).e, s))
    decreases |parts|
  {
    hide Eval, Readable, Named;
    if parts != [] {
      var rewrite := if falsy then FalsyGet(parts[0]) else GuardedGet(parts[0]);
      RewriteCorrect(rt, fr, top, r, parts[0], falsy, slot, s);
      PartsCorrect(rt, fr, Inl(RewriteEntry(rewrite, top, slot)), LookupOne(rt, r, parts[0], falsy), parts[1..], falsy, slot, s);
    }
  }

  lemma RewriteCorrect(rt: Runtime, fr: Frame, top: Entry, r: Res<Value>, name: string, falsy: bool, slot: nat, s: Store)
    requires Sim(slot, s, r, Eval(rt, fr, top.e, s))
    requires top.Lit? ==> r.Ok? && r.w == s.w && Eval(rt, fr, top.e, s) == Done(s, r.v)
    requires Readable(name)
    ensures var rewrite := if falsy then FalsyGet(name) else GuardedGet(name);
            Sim(slot, s, LookupOne(rt, r, name, falsy), Eval(rt, fr, RewriteEntry(rewrite, top, slot), s))
  {
    hide Readable, Named;
    match top
    case Lit(e) =>
      GetIs(rt, fr, e, name, s, s, r.v);
    case Inl(e) =>
      if r.Ok? {
        var s1 := Eval(rt, fr, e, s).s;
        var s2 := s1.(temps := s1.temps[slot + 1 := r.v]);
        assert Eval(rt, fr, JSetTemp(slot + 1, e), s) == Done(s2, r.v);
        assert Eval(rt, fr, JTemp(slot + 1), s2) == Done(s2, r.v);
        GetIs(rt, fr, JTemp(slot + 1), name, s2, s2, r.v);
      } else if r.Threw? {
        assert Eval(rt, fr, JSetTemp(slot + 1, e), s) == Fail(r.w, r.error);
      }
  }

  lemma GetIs(rt: Runtime, fr: Frame, e: JExpr, name: string, s: Store, s1: Store, v: Value)
    requires Eval(rt, fr, e, s) == Done(s1, v) && Readable(name)
    ensures Eval(rt, fr, JGet(e, name), s) == if Nullish(v) then Fail(s1.w, TYPE_ERROR) else Lift(s1, rt.property(s1.w, v, name))
  {
    hide Readable, Named;
    NameReadBack(name);
  }

  /** Where every property has its own name as its value, a lookup gives the name that was written exactly if it is readable. */
  lemma LookupExactly(rt: Runtime, fr: Frame, e: JExpr, name: string, s: Store, s1: Store, v: Value)
    requires Eval(rt, fr, e, s) == Done(s1, v) && !Nullish(v)
    requires forall w, u, n :: rt.property(w, u, n) == Ok(w, Str(n))
    ensures Eval(rt, fr, JGet(e, name), s) == Done(s1, Str(name)) <==> Readable(name)
  {
    hide Readable, Named;
    NameReadBack(name);
  }

  lemma PathCorrect(cc: Setting, rt: Runtime, env: Env, fr: Frame, p: Path, falsy: bool, slot: nat, s: Store)
    requires SameView(cc, env, fr) && (p.depth != 0 ==> cc.useDepths) && WfPath(p)
    ensures Sim(slot, s, InterpPath(rt, env, p, falsy, s.w), Eval(rt, fr, TPath(cc, p, falsy, slot).e, s))
  {
    hide Readable, Eval, TParts, Named;
    LiteralContext(cc, rt, env, fr, p.depth, s);
    LiteralData(rt, fr, p.depth, s);
    if !NoName(p) {
      if p.data {
        PartsCorrect(rt, fr, Lit(JData(p.depth)), Ok(s.w, DataAt(rt, s.w, env.data, p.depth)), p.parts, true, slot, s);
      } else {
        PartsCorrect(rt, fr, Lit(ContextExpr(cc, p.depth)), Ok(s.w, ContextAt(env, p.depth)), p.parts, falsy, slot, s);
      }
    }
  }

  // ----- `undefined` is only ever the literal

  lemma {:induction false} PartsNotUndefined(top: Entry, parts: seq<string>, falsy: bool, slot: nat)
    requires !top.e.JUndefined?
    ensures !TParts(top, parts, falsy, slot).e.JUndefined?
    decreases |parts|
  {
    if parts != [] {
      PartsNotUndefined(Inl(RewriteEntry(if falsy then FalsyGet(parts[0]) else GuardedGet(parts[0]), top, slot)), parts[1..], falsy, slot);
    }
  }

  lemma OnlyLiteralUndefined(cc: Setting, e: Expr, slot: nat)
    requires DefaultOptions(cc.opts)
    ensures TParam(cc, e, slot).e.JUndefined? <==> e.UndefinedE?
  {
    match e
    case PathE(p) =>
      PartsNotUndefined(Lit(JData(p.depth)), p.parts, true, slot);
      PartsNotUndefined(Lit(ContextExpr(cc, p.depth)), p.parts, false, slot);
    case SubE(c) =>
      assert !TSexpr(cc, c, true, JNull, JNull, slot).JUndefined?;
    case _ =>
  }

  // ----- hashes

  /** The expression of each pair, by its place. */
  function ValueAt(cc: Setting, ps: seq<Pair>, slot: nat): nat -> JExpr {
    (k: nat) => if k < |ps| then TParam(cc, ps[k].value, slot).e else JNull
  }

  /** The object the compiler builds has the pairs that are kept. */
  lemma {:induction false} PairsKept(cc: Setting, ps: seq<Pair>, n: nat, slot: nat)
    requires DefaultOptions(cc.opts) && n <= |ps|
    ensures TPairs(cc, ps[..n], slot, Mapped(KeptFrom(ps, n), ValueAt(cc, ps, slot))) == Mapped(KeptFrom(ps, 0), ValueAt(cc, ps, slot))
    decreases n
  {
    hide TParam, Put, Mapped;
    if n > 0 {
      var p, f := ps[n - 1], ValueAt(cc, ps, slot);
      assert ps[..n][..n - 1] == ps[..n - 1] && ps[..n][n - 1] == p;
      LengthIs(cc, p.value, slot);
      assert f(n - 1) == TParam(cc, p.value, slot).e;
      MappedPut<nat, JExpr>(KeptFrom(ps, n), p.key, n - 1, LengthOf(p.value).GetOr(0), f);
      PairsKept(cc, ps, n - 1, slot);
    }
  }

  // ----- expressions

  lemma {:induction false} ExprCorrect(cc: Setting, rt: Runtime, env: Env, fr: Frame, e: Expr, slot: nat, s: Store)
    requires DefaultOptions(cc.opts) && SameView(cc, env, fr) && Monotone(rt)
    requires WfExpr(e, cc.opts) && (UsesExpr(e, cc.opts) ==> cc.useDepths)
    ensures Sim(slot, s, InterpExpr(rt, cc.opts, env, e, s.w), Eval(rt, fr, TParam(cc, e, slot).e, s))
    decreases e, 0
  {
    hide Named;
    match e
    case PathE(p) => PathCorrect(cc, rt, env, fr, p, false, slot, s);
    case SubE(c) => SexprCorrect(cc, rt, env, fr, c, true, JNull, JNull, None, None, slot, s);
    case _ =>
  }

  lemma {:induction false} ParamsCorrect(cc: Setting, rt: Runtime, env: Env, fr: Frame, es: seq<Expr>, slot: nat, s: Store)
    requires DefaultOptions(cc.opts) && SameView(cc, env, fr) && Monotone(rt)
    requires forall i :: 0 <= i < |es| ==> WfExpr(es[i], cc.opts)
    requires AnyExpr(es, cc.opts) ==> cc.useDepths
    ensures Sim(slot, s, InterpParams(rt, cc.opts, env, es, s.w), EvalAll(rt, fr, TParams(cc, es, slot), s))
    decreases es, 0
  {
    hide Named;
    if es != [] {
      ExprCorrect(cc, rt, env, fr, es[0], slot, s);
      var r := InterpExpr(rt, cc.opts, env, es[0], s.w);
      if r.Ok? {
        var s1 := Eval(rt, fr, TParam(cc, es[0], slot).e, s).s;
        ParamsCorrect(cc, rt, env, fr, es[1..], slot, s1);
      }
    }
  }

  lemma {:induction false} AnyPairAt(ps: seq<Pair>, k: nat, o: Options)
    requires k < |ps| && UsesExpr(ps[k].value, o)
    ensures AnyPair(ps, o)
    decreases k
  {
    hide UsesExpr;
    if k > 0 { AnyPairAt(ps[1..], k - 1, o); }
  }

  lemma {:induction false} PairsCorrect(cc: Setting, rt: Runtime, env: Env, fr: Frame, ps: seq<Pair>, ks: seq<Keyed<nat>>, slot: nat, s: Store)
    requires DefaultOptions(cc.opts) && SameView(cc, env, fr) && Monotone(rt) && Places(ks, ps)
    requires forall i :: 0 <= i < |ps| ==> WfExpr(ps[i].value, cc.opts)
    requires AnyPair(ps, cc.opts) ==> cc.useDepths
    ensures Sim(slot, s, InterpPairs(rt, cc.opts, env, ps, ks, s.w), EvalPairs(rt, fr, DropUndefined(Mapped(ks, ValueAt(cc, ps, slot))), s))
    decreases ps, 0, |ks|
  {
    hide Monotone, UsesExpr, WfExpr, TParam, Eval, Named;
    if ks != [] {
      var e := ps[ks[0].value].value;
      var t := Mapped(ks, ValueAt(cc, ps, slot));
      OnlyLiteralUndefined(cc, e, slot);
      assert t[1..] == Mapped(ks[1..], ValueAt(cc, ps, slot));
      if e.UndefinedE? {
        assert DropUndefined(t) == [] + DropUndefined(t[1..]) == DropUndefined(t[1..]);
        PairsCorrect(cc, rt, env, fr, ps, ks[1..], slot, s);
      } else {
        var d := DropUndefined(t);
        assert d[0] == t[0] && d[1..] == DropUndefined(t[1..]);
        if UsesExpr(e, cc.opts) { AnyPairAt(ps, ks[0].value, cc.opts); }
        ExprCorrect(cc, rt, env, fr, e, slot, s);
        if InterpExpr(rt, cc.opts, env, e, s.w).Ok? {
          PairsCorrect(cc, rt, env, fr, ps, ks[1..], slot, Eval(rt, fr, t[0].value, s).s);
        }
      }
    }
  }

  lemma {:induction false} HashCorrect(cc: Setting, rt: Runtime, env: Env, fr: Frame, h: Hash, slot: nat, s: Store)
    requires DefaultOptions(cc.opts) && SameView(cc, env, fr) && Monotone(rt)
    requires h.Hash? ==> forall i :: 0 <= i < |h.pairs| ==> WfExpr(h.pairs[i].value, cc.opts)
    requires h.Hash? && AnyPair(h.pairs, cc.opts) ==> cc.useDepths
    ensures Sim(slot, s, InterpHash(rt, cc.opts, env, h, s.w), Eval(rt, fr, THash(cc, h, slot), s))
    decreases h, 1
  {
    hide Monotone, AnyPair, WfExpr, TPairs, Mapped, KeptFrom, DropUndefined, Named;
    if h.Hash? {
      var ps := h.pairs;
      KeptPlaces(ps, 0);
      KeptNone(ps);
      PairsKept(cc, ps, |ps|, slot);
      MappedNone(ValueAt(cc, ps, slot));
      assert ps[..|ps|] == ps;
      PairsCorrect(cc, rt, env, fr, ps, KeptFrom(ps, 0), slot, s);
    }
  }

  lemma KeptNone(ps: seq<Pair>)
    ensures KeptFrom(ps, |ps|) == []
  {
  }

  lemma MappedNone(f: nat -> JExpr)
    ensures Mapped([], f) == []
  {
  }

  lemma CalleeCorrect(cc: Setting, rt: Runtime, env: Env, fr: Frame, p: Path, slot: nat, s: Store)
    requires SameView(cc, env, fr) && (p.depth != 0 ==> cc.useDepths)
    requires !KnownHelper(p, cc.opts) && WfCallee(p, cc.opts)
    ensures Sim(slot, s, HelperCallee(rt, cc.opts, env, p, s.w),
                Eval(rt, fr, HelperLookup(p.original, TPath(cc, p, true, slot).e, SimpleId(p)), s))
  {
    hide Readable, Named;
    var nonHelper := TPath(cc, p, true, slot).e;
    PathCorrect(cc, rt, env, fr, p, true, slot, s);
    if SimpleId(p) { NamedHelper(rt, fr, p.original, s); }
    var first := if SimpleId(p) then JOr(JHelperNamed(p.original), nonHelper) else nonHelper;
    var r := if SimpleId(p) && Truthy(rt.helper(p.original)) then Ok(s.w, rt.helper(p.original)) else InterpPath(rt, env, p, true, s.w);
    assert Sim(slot, s, r, Eval(rt, fr, first, s));
    if r.Ok? {
      var s1 := Eval(rt, fr, first, s).s;
      OwnNames();
      NamedHelper(rt, fr, "helperMissing", s1);
    }
  }

  lemma OptionsCorrect(rt: Runtime, env: Env, fr: Frame, jo: JOptions, fn: JExpr, inverse: JExpr, f: Option<Den>, i: Option<Den>, h: Res<Value>, slot: nat, s: Store)
    requires fr.data == env.data
    requires FnIs(fr, fn, f) && FnIs(fr, inverse, i)
    requires jo.fn == FnOf(fn, inverse) && jo.inverse == FnOf(inverse, fn)
    requires Sim(slot, s, h, Eval(rt, fr, jo.hash, s))
    ensures SimOptions(slot, s,
                match h case Ok(w, v) => Ok(w, MakeOptions(jo.name, v, f, i, env.data)) case Threw(w, e) => Threw(w, e) case Stuck => Stuck,
                EvalOptions(rt, fr, jo, s))
  {
    hide Named;
    assert FnValue(fr, jo.fn).Some? && OptDenLeq(FnPair(f, i).0, FnValue(fr, jo.fn).value);
    assert FnValue(fr, jo.inverse).Some? && OptDenLeq(FnPair(f, i).1, FnValue(fr, jo.inverse).value);
  }

  lemma {:induction false} SexprCorrect(cc: Setting, rt: Runtime, env: Env, fr: Frame, c: Sexpr, isSub: bool, fn: JExpr, inverse: JExpr,
                                        f: Option<Den>, i: Option<Den>, slot: nat, s: Store)
    requires DefaultOptions(cc.opts) && SameView(cc, env, fr) && Monotone(rt)
    requires WfSexpr(c, isSub, cc.opts) && (UsesSexpr(c, isSub, cc.opts) ==> cc.useDepths)
    requires FnIs(fr, fn, f) && FnIs(fr, inverse, i)
    requires !Classify(c, isSub, cc.opts).Ambiguous?
    ensures Sim(slot, s, InterpSexpr(rt, cc.opts, env, c, isSub, f, i, s.w), Eval(rt, fr, TSexpr(cc, c, isSub, fn, inverse, slot), s))
    decreases c, 1
  {
    hide Eval, Named;
    var p := CalleePath(c.callee);
    if Classify(c, isSub, cc.opts).Simple? {
      PathCorrect(cc, rt, env, fr, p, false, slot, s);
      LambdaCorrect(rt, fr, TPath(cc, p, false, slot).e, InterpPath(rt, env, p, false, s.w), slot, s);
    } else {
      HelperSexprCorrect(cc, rt, env, fr, c, fn, inverse, f, i, slot, s);
    }
  }

  lemma {:induction false} HelperSexprCorrect(cc: Setting, rt: Runtime, env: Env, fr: Frame, c: Sexpr, fn: JExpr, inverse: JExpr,
                                              f: Option<Den>, i: Option<Den>, slot: nat, s: Store)
    requires DefaultOptions(cc.opts) && SameView(cc, env, fr) && Monotone(rt)
    requires WfCallee(CalleePath(c.callee), cc.opts) && WfArguments(c, cc.opts) && (AnyExpr(c.params, cc.opts) || (c.hash.Hash? && AnyPair(c.hash.pairs, cc.opts)) ==> cc.useDepths)
    requires !KnownHelper(CalleePath(c.callee), cc.opts) && CalleePath(c.callee).depth != 0 ==> cc.useDepths
    requires FnIs(fr, fn, f) && FnIs(fr, inverse, i)
    ensures Sim(slot, s, HelperMeaning(rt, cc.opts, env, c, f, i, s.w), Eval(rt, fr, HelperCall(cc, c, fn, inverse, slot), s))
    decreases c, 0
  {
    hide Eval, Named;
    var p := CalleePath(c.callee);
    var callee := Callee(cc, p, slot);
    var r0 := HelperCallee(rt, cc.opts, env, p, s.w);
    if KnownHelper(p, cc.opts) { NamedHelper(rt, fr, p.parts[0], s); } else { CalleeCorrect(cc, rt, env, fr, p, slot, s); }
    var args, h := TParams(cc, c.params, slot), THash(cc, c.hash, slot);
    var jo := JOptions(HelperName(p, cc.opts), h, FnOf(fn, inverse), FnOf(inverse, fn));
    if r0.Ok? {
      var s1 := Eval(rt, fr, callee, s).s;
      var r1 := InterpParams(rt, cc.opts, env, c.params, s1.w);
      ParamsCorrect(cc, rt, env, fr, c.params, slot, s1);
      if r1.Ok? {
        var s2 := EvalAll(rt, fr, args, s1).s;
        HashCorrect(cc, rt, env, fr, c.hash, slot, s2);
        OptionsCorrect(rt, env, fr, jo, fn, inverse, f, i, InterpHash(rt, cc.opts, env, c.hash, s2.w), slot, s2);
      }
    }
    CallCorrect(cc, rt, env, fr, r0, callee, args, jo, f, i, c.params, c.hash, slot, s);
  }

  /** The callee of a helper call. */
  function Callee(cc: Setting, p: Path, slot: nat): JExpr {
    if KnownHelper(p, cc.opts) then JHelperNamed(p.parts[0]) else HelperLookup(p.original, TPath(cc, p, true, slot).e, SimpleId(p))
  }

  function HelperCall(cc: Setting, c: Sexpr, fn: JExpr, inverse: JExpr, slot: nat): JExpr {
    var p := CalleePath(c.callee);
    JCall(Callee(cc, p, slot), TParams(cc, c.params, slot),
          Inline(JOptions(HelperName(p, cc.opts), THash(cc, c.hash, slot), FnOf(fn, inverse), FnOf(inverse, fn))))
  }

  /** What the interpreter makes of a helper call. */
  function HelperMeaning(rt: Runtime, o: Options, env: Env, c: Sexpr, f: Option<Den>, i: Option<Den>, w: World): Res<Value> {
    var p := CalleePath(c.callee);
    CallMeaning(rt, o, env, HelperCallee(rt, o, env, p, w), c.params, c.hash, HelperName(p, o), f, i)
  }

  lemma LambdaCorrect(rt: Runtime, fr: Frame, e: JExpr, r: Res<Value>, slot: nat, s: Store)
    requires Sim(slot, s, r, Eval(rt, fr, e, s))
    ensures Sim(slot, s, match r case Ok(w, v) => Lambda(rt, w, v, fr.ctx) case Threw(w, x) => Threw(w, x) case Stuck => Stuck, Eval(rt, fr, JLambda(e), s))
  {
    hide Named;
  }

  lemma NamedHelper(rt: Runtime, fr: Frame, name: string, s: Store)
    requires Readable(name)
    ensures Eval(rt, fr, JHelperNamed(name), s) == Done(s, rt.helper(name))
  {
    hide Readable, Named;
    NameReadBack(name);
  }

  function CallMeaning(rt: Runtime, o: Options, env: Env, r0: Res<Value>, es: seq<Expr>, h: Hash, name: string, f: Option<Den>, i: Option<Den>): Res<Value> {
    var (w0, v) :- r0;
    if Nullish(v) then Threw(w0, TYPE_ERROR)
    else
      var (w1, vs) :- InterpParams(rt, o, env, es, w0);
      var (w2, hv) :- InterpHash(rt, o, env, h, w1);
      rt.call(w2, v, env.ctx, vs, MakeOptions(name, hv, f, i, env.data))
  }

  /** Callee, then arguments, then options, each simulated in turn. */
  lemma CallCorrect(cc: Setting, rt: Runtime, env: Env, fr: Frame, r0: Res<Value>, callee: JExpr, args: seq<JExpr>, jo: JOptions,
                    f: Option<Den>, i: Option<Den>, es: seq<Expr>, h: Hash, slot: nat, s: Store)
    requires fr.ctx == env.ctx && Monotone(rt)
    requires Sim(slot, s, r0, Eval(rt, fr, callee, s))
    requires r0.Ok? ==> var s1 := Eval(rt, fr, callee, s).s;
               var r1 := InterpParams(rt, cc.opts, env, es, s1.w);
               Sim(slot, s1, r1, EvalAll(rt, fr, args, s1)) &&
               (r1.Ok? ==> var s2 := EvalAll(rt, fr, args, s1).s;
                  SimOptions(slot, s2,
                   match InterpHash(rt, cc.opts, env, h, s2.w) case Ok(w, hv) => Ok(w, MakeOptions(jo.name, hv, f, i, env.data)) case Threw(w, e) => Threw(w, e) case Stuck => Stuck,
                   EvalOptions(rt, fr, jo, s2)))
    ensures Sim(slot, s, CallMeaning(rt, cc.opts, env, r0, es, h, jo.name, f, i), Eval(rt, fr, JCall(callee, args, Inline(jo)), s))
  {
    hide InterpParams, InterpHash, Named;
  }

  /** The options object an ambiguous mustache or block builds. */
  function AmbiguousOptions(p: Path, env: Env, f: Option<Den>, i: Option<Den>): HelperOptions
    requires p.parts != []
  {
    MakeOptions(p.parts[0], HashV([]), f, i, env.data)
  }

  /** As `Keeps`, but the two registers may change. */
  ghost predicate KeepsTemps(slot: nat, s: Store, s': Store) {
    forall n: nat :: n <= slot ==> Temp(s', n) == Temp(s, n)
  }

  /** An ambiguous mustache or block; a block also leaves its options in the register for the test that follows. */
  lemma AmbiguousCorrect(cc: Setting, rt: Runtime, env: Env, fr: Frame, c: Sexpr, fn: JExpr, inverse: JExpr,
                         f: Option<Den>, i: Option<Den>, slot: nat, s: Store)
    requires DefaultOptions(cc.opts) && SameView(cc, env, fr) && Monotone(rt)
    requires WfSexpr(c, false, cc.opts) && (UsesSexpr(c, false, cc.opts) ==> cc.useDepths)
    requires FnIs(fr, fn, f) && FnIs(fr, inverse, i)
    requires Classify(c, false, cc.opts).Ambiguous?
    ensures var p := CalleePath(c.callee);
            var out := Eval(rt, fr, TSexpr(cc, c, false, fn, inverse, slot), s);
            match InterpSexpr(rt, cc.opts, env, c, false, f, i, s.w)
            case Ok(w, v) => out.Done? && out.v == v && out.s.w == w && KeepsTemps(slot, s, out.s) &&
                             (fn != JNull || inverse != JNull ==>
                                out.s.options.Some? && OptionsLeq(AmbiguousOptions(p, env, f, i), out.s.options.value))
            case Threw(w, e) => out == Fail(w, e)
            case Stuck => true
  {
    hide Eval, TPath, InterpPath, Readable, WfSexpr, HelperOrField, Lookup, UsesSexpr, FnIs, OptionsLeq, Monotone;
    hide TSexpr, InterpSexpr, SameView, AmbiguousRest, AmbiguousOptions, MakeOptions, Keeps;
    ViewIs(cc, env, fr);
    AmbiguousIs(cc, rt, env, c, fn, inverse, f, i, slot, s.w);
    var p := CalleePath(c.callee);
    var name := p.parts[0];
    var jo := JOptions(name, JObject([]), FnOf(fn, inverse), FnOf(inverse, fn));
    var or := JOr(JHelperNamed(name), TPath(cc, p, false, slot).e);
    var lookup := JSetHelperVar(JIfNotNull(JSetHelperVar(or), JHelperVar, JHelperNamed("helperMissing")));
    var rest := AmbiguousRest(jo, fn != JNull || inverse != JNull);
    var r := HelperOrField(rt, env, p, s.w);
    if r.Ok? {
      var s2, h := AmbiguousLookup(cc, rt, env, fr, c, slot, s);
      RestCorrect(rt, env, fr, p, lookup, fn, inverse, f, i, s, s2, h);
    } else if r.Threw? {
      LookupThrows(cc, rt, env, fr, c, rest, slot, s);
    }
  }

  lemma AmbiguousIs(cc: Setting, rt: Runtime, env: Env, c: Sexpr, fn: JExpr, inverse: JExpr, f: Option<Den>, i: Option<Den>, slot: nat, w: World)
    requires Classify(c, false, cc.opts).Ambiguous?
    ensures var p := CalleePath(c.callee);
            var jo := JOptions(p.parts[0], JObject([]), FnOf(fn, inverse), FnOf(inverse, fn));
            var or := JOr(JHelperNamed(p.parts[0]), TPath(cc, p, false, slot).e);
            var lookup := JSetHelperVar(JIfNotNull(JSetHelperVar(or), JHelperVar, JHelperNamed("helperMissing")));
            TSexpr(cc, c, false, fn, inverse, slot) == JComma(lookup, AmbiguousRest(jo, fn != JNull || inverse != JNull))
    ensures var p := CalleePath(c.callee);
            InterpSexpr(rt, cc.opts, env, c, false, f, i, w) ==
            match HelperOrField(rt, env, p, w)
            case Ok(w1, found) =>
              var h := if Nullish(found) then rt.helper("helperMissing") else found;
              if h.Func? then rt.call(w1, h, env.ctx, [], AmbiguousOptions(p, env, f, i)) else Ok(w1, h)
            case Threw(w1, e) => Threw(w1, e)
            case Stuck => Stuck
  {
    hide TPath, HelperOrField, FnOf;
  }

  /** What follows the lookup in an ambiguous call. */
  function AmbiguousRest(jo: JOptions, helperCall: bool): JExpr {
    var call := JIfFunction(JHelperVar, JCall(JHelperVar, [], if helperCall then Register else Inline(jo)), JHelperVar);
    if helperCall then JComma(JSetOptions(jo), call) else call
  }

  lemma RestCorrect(rt: Runtime, env: Env, fr: Frame, p: Path, lookup: JExpr, fn: JExpr, inverse: JExpr, f: Option<Den>, i: Option<Den>,
                    s: Store, s2: Store, h: Value)
    requires Monotone(rt) && fr.ctx == env.ctx && fr.data == env.data && p.parts != []
    requires FnIs(fr, fn, f) && FnIs(fr, inverse, i)
    requires Eval(rt, fr, lookup, s) == Done(s2, h) && s2.helper == h
    ensures var helperCall := fn != JNull || inverse != JNull;
            var jo := JOptions(p.parts[0], JObject([]), FnOf(fn, inverse), FnOf(inverse, fn));
            var out := Eval(rt, fr, JComma(lookup, AmbiguousRest(jo, helperCall)), s);
            match (if h.Func? then rt.call(s2.w, h, env.ctx, [], AmbiguousOptions(p, env, f, i)) else Ok(s2.w, h))
            case Ok(w, v) => out.Done? && out.v == v && out.s.w == w && out.s.temps == s2.temps &&
                             (helperCall ==> out.s.options.Some? && OptionsLeq(AmbiguousOptions(p, env, f, i), out.s.options.value))
            case Threw(w, e) => out == Fail(w, e)
            case Stuck => true
  {
    hide Eval, Monotone, FnIs;
    var helperCall := fn != JNull || inverse != JNull;
    var jo := JOptions(p.parts[0], JObject([]), FnOf(fn, inverse), FnOf(inverse, fn));
    EmptyObject(rt, fr, s2);
    OptionsCorrect(rt, env, fr, jo, fn, inverse, f, i, Ok(s2.w, HashV([])), 0, s2);
    var ho := EvalOptions(rt, fr, jo, s2).v;
    HashedOptions(rt, fr, jo, s2);
    CallLeq(rt, s2.w, h, env.ctx, [], AmbiguousOptions(p, env, f, i), ho);
    AmbiguousCallCorrect(rt, fr, env, jo, h, ho, helperCall, s2);
    CommaCorrect(rt, fr, lookup, AmbiguousRest(jo, helperCall), s, s2, h);
  }

  /** Building options with an empty hash has no effect. */
  lemma HashedOptions(rt: Runtime, fr: Frame, jo: JOptions, s: Store)
    requires jo.hash == JObject([]) && EvalOptions(rt, fr, jo, s).Done?
    ensures EvalOptions(rt, fr, jo, s).s == s
  {
    hide Named;
    EmptyObject(rt, fr, s);
  }

  lemma CallLeq(rt: Runtime, w: World, f: Value, ctx: Value, args: seq<Value>, a: HelperOptions, b: HelperOptions)
    requires Monotone(rt) && OptionsLeq(a, b)
    ensures ResLeq(rt.call(w, f, ctx, args, a), rt.call(w, f, ctx, args, b))
  {
  }

  lemma EmptyObject(rt: Runtime, fr: Frame, s: Store)
    ensures Eval(rt, fr, JObject([]), s) == Done(s, HashV([]))
  {
    hide Named;
  }

  lemma CommaCorrect(rt: Runtime, fr: Frame, a: JExpr, b: JExpr, s: Store, s1: Store, v: Value)
    requires Eval(rt, fr, a, s) == Done(s1, v)
    ensures Eval(rt, fr, JComma(a, b), s) == Eval(rt, fr, b, s1)
  {
    hide Named;
  }

  lemma OrCorrect(cc: Setting, rt: Runtime, env: Env, fr: Frame, c: Sexpr, slot: nat, s: Store)
    requires SameView(cc, env, fr)
    requires WfSexpr(c, false, cc.opts) && (UsesSexpr(c, false, cc.opts) ==> cc.useDepths)
    requires Classify(c, false, cc.opts).Ambiguous?
    ensures var p := CalleePath(c.callee);
            Sim(slot, s, HelperOrField(rt, env, p, s.w), Eval(rt, fr, JOr(JHelperNamed(p.parts[0]), TPath(cc, p, false, slot).e), s))
  {
    hide TPath, InterpPath, Readable, Named, Eval;
    var p := CalleePath(c.callee);
    PathCorrect(cc, rt, env, fr, p, false, slot, s);
    EmptyReadable();
    NamedHelper(rt, fr, p.parts[0], s);
    EitherIs(rt, fr, JHelperNamed(p.parts[0]), TPath(cc, p, false, slot).e, s, rt.helper(p.parts[0]));
  }

  lemma EmptyReadable()
    ensures Readable("")
  {
  }

  lemma EitherIs(rt: Runtime, fr: Frame, a: JExpr, b: JExpr, s: Store, v: Value)
    requires Eval(rt, fr, a, s) == Done(s, v)
    ensures Eval(rt, fr, JOr(a, b), s) == if Truthy(v) then Done(s, v) else Eval(rt, fr, b, s)
  {
    hide Named;
  }

  /** A lookup that throws ends the whole expression. */
  lemma LookupThrows(cc: Setting, rt: Runtime, env: Env, fr: Frame, c: Sexpr, rest: JExpr, slot: nat, s: Store)
    requires SameView(cc, env, fr)
    requires WfSexpr(c, false, cc.opts) && (UsesSexpr(c, false, cc.opts) ==> cc.useDepths)
    requires Classify(c, false, cc.opts).Ambiguous?
    requires HelperOrField(rt, env, CalleePath(c.callee), s.w).Threw?
    ensures var p := CalleePath(c.callee);
            var or := JOr(JHelperNamed(p.parts[0]), TPath(cc, p, false, slot).e);
            var lookup := JSetHelperVar(JIfNotNull(JSetHelperVar(or), JHelperVar, JHelperNamed("helperMissing")));
            var r := HelperOrField(rt, env, p, s.w);
            Eval(rt, fr, JComma(lookup, rest), s) == Fail(r.w, r.error)
  {
    hide TPath, InterpPath, HelperOrField, Named;
    var p := CalleePath(c.callee);
    OrCorrect(cc, rt, env, fr, c, slot, s);
    var or := JOr(JHelperNamed(p.parts[0]), TPath(cc, p, false, slot).e);
    RegisterThrows(rt, fr, or, rest, s);
  }

  lemma RegisterThrows(rt: Runtime, fr: Frame, e: JExpr, rest: JExpr, s: Store)
    requires Eval(rt, fr, e, s).Fail?
    ensures Eval(rt, fr, JComma(JSetHelperVar(JIfNotNull(JSetHelperVar(e), JHelperVar, JHelperNamed("helperMissing"))), rest), s) == Eval(rt, fr, e, s)
  {
    hide Named;
    var x := Eval(rt, fr, e, s);
    var chosen := JIfNotNull(JSetHelperVar(e), JHelperVar, JHelperNamed("helperMissing"));
    assert Eval(rt, fr, JSetHelperVar(e), s) == x;
    assert Eval(rt, fr, chosen, s) == x;
    assert Eval(rt, fr, JSetHelperVar(chosen), s) == x;
  }

  /** The first half: the helper of that name, else the field, else `helperMissing`, left in the register. */
  lemma AmbiguousLookup(cc: Setting, rt: Runtime, env: Env, fr: Frame, c: Sexpr, slot: nat, s: Store) returns (s2: Store, h: Value)
    requires SameView(cc, env, fr)
    requires WfSexpr(c, false, cc.opts) && (UsesSexpr(c, false, cc.opts) ==> cc.useDepths)
    requires Classify(c, false, cc.opts).Ambiguous?
    requires HelperOrField(rt, env, CalleePath(c.callee), s.w).Ok?
    ensures var p := CalleePath(c.callee);
            var or := JOr(JHelperNamed(p.parts[0]), TPath(cc, p, false, slot).e);
            var found := HelperOrField(rt, env, p, s.w);
            h == (if Nullish(found.v) then rt.helper("helperMissing") else found.v) &&
            s2.helper == h && s2.w == found.w && KeepsTemps(slot, s, s2) &&
            Eval(rt, fr, JSetHelperVar(JIfNotNull(JSetHelperVar(or), JHelperVar, JHelperNamed("helperMissing"))), s) == Done(s2, h)
  {
    hide Eval, TPath, InterpPath, HelperOrField, Named;
    var p := CalleePath(c.callee);
    var found := HelperOrField(rt, env, p, s.w);
    OrCorrect(cc, rt, env, fr, c, slot, s);
    h := if Nullish(found.v) then rt.helper("helperMissing") else found.v;
    s2 := ChooseCorrect(rt, fr, JOr(JHelperNamed(p.parts[0]), TPath(cc, p, false, slot).e), found, slot, s);
  }

  lemma ChooseCorrect(rt: Runtime, fr: Frame, or: JExpr, found: Res<Value>, slot: nat, s: Store) returns (s2: Store)
    requires found.Ok? && Sim(slot, s, found, Eval(rt, fr, or, s))
    ensures var h := if Nullish(found.v) then rt.helper("helperMissing") else found.v;
            s2.helper == h && s2.w == found.w && KeepsTemps(slot, s, s2) &&
            Eval(rt, fr, JSetHelperVar(JIfNotNull(JSetHelperVar(or), JHelperVar, JHelperNamed("helperMissing"))), s) == Done(s2, h)
  {
    hide Eval, Named;
    var h := if Nullish(found.v) then rt.helper("helperMissing") else found.v;
    var s0 := Eval(rt, fr, or, s).s;
    var s1 := s0.(helper := found.v);
    RegisterSet(rt, fr, or, found.v, s, s0);
    RegisterRead(rt, fr, s1);
    NamedHelper(rt, fr, "helperMissing", s1);
    NotNullIs(rt, fr, JSetHelperVar(or), JHelperVar, JHelperNamed("helperMissing"), s, s1, found.v);
    RegisterSet(rt, fr, JIfNotNull(JSetHelperVar(or), JHelperVar, JHelperNamed("helperMissing")), h, s, s1);
    s2 := s1.(helper := h);
  }

  lemma RegisterSet(rt: Runtime, fr: Frame, e: JExpr, v: Value, s: Store, s1: Store)
    requires Eval(rt, fr, e, s) == Done(s1, v)
    ensures Eval(rt, fr, JSetHelperVar(e), s) == Done(s1.(helper := v), v)
  {
    hide Named;
  }

  lemma RegisterRead(rt: Runtime, fr: Frame, s: Store)
    ensures Eval(rt, fr, JHelperVar, s) == Done(s, s.helper)
  {
    hide Named;
  }

  lemma NotNullIs(rt: Runtime, fr: Frame, test: JExpr, thn: JExpr, els: JExpr, s: Store, s1: Store, v: Value)
    requires Eval(rt, fr, test, s) == Done(s1, v)
    ensures Eval(rt, fr, JIfNotNull(test, thn, els), s) == if Nullish(v) then Eval(rt, fr, els, s1) else Eval(rt, fr, thn, s1)
  {
    hide Named;
  }

  /** The second half: call the register if it is a function, and otherwise produce it. */
  lemma AmbiguousCallCorrect(rt: Runtime, fr: Frame, env: Env, jo: JOptions, h: Value, ho: HelperOptions, helperCall: bool, s: Store)
    requires fr.ctx == env.ctx && s.helper == h
    requires EvalOptions(rt, fr, jo, s) == Done(s, ho)
    ensures var call := JIfFunction(JHelperVar, JCall(JHelperVar, [], if helperCall then Register else Inline(jo)), JHelperVar);
            var s1 := if helperCall then s.(options := Some(ho)) else s;
            Eval(rt, fr, if helperCall then JComma(JSetOptions(jo), call) else call, s) ==
            if h.Func? then Lift(s1, rt.call(s.w, h, env.ctx, [], ho)) else Done(s1, h)
  {
    hide Eval, Named;
    var oa := if helperCall then Register else Inline(jo);
    var s1 := if helperCall then s.(options := Some(ho)) else s;
    assert EvalOptionsArg(rt, fr, oa, s1) == Done(s1, ho);
    CallRegister(rt, fr, oa, ho, s1);
    if helperCall {
      StoreOptions(rt, fr, jo, ho, s);
      CommaCorrect(rt, fr, JSetOptions(jo), JIfFunction(JHelperVar, JCall(JHelperVar, [], oa), JHelperVar), s, s1, Undefined);
    }
  }

  lemma StoreOptions(rt: Runtime, fr: Frame, jo: JOptions, ho: HelperOptions, s: Store)
    requires EvalOptions(rt, fr, jo, s) == Done(s, ho)
    ensures Eval(rt, fr, JSetOptions(jo), s) == Done(s.(options := Some(ho)), Undefined)
  {
    hide Named;
  }

  lemma CallRegister(rt: Runtime, fr: Frame, oa: JOptionsArg, ho: HelperOptions, s: Store)
    requires EvalOptionsArg(rt, fr, oa, s) == Done(s, ho)
    ensures Eval(rt, fr, JIfFunction(JHelperVar, JCall(JHelperVar, [], oa), JHelperVar), s) ==
            if s.helper.Func? then Lift(s, rt.call(s.w, s.helper, fr.ctx, [], ho)) else Done(s, s.helper)
  {
    hide Named;
    assert EvalAll(rt, fr, [], s) == Done(s, []);
    assert Eval(rt, fr, JHelperVar, s) == Done(s, s.helper);
  }
}

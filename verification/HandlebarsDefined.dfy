/** Templates whose meaning is inside the model: they do not lead to an unescaped piece that is no text. */
module HandlebarsDefined {
  import opened Wrappers
  import opened HandlebarsHash
  import opened HandlebarsAst
  import opened HandlebarsRuntime
  import opened HandlebarsInterp
  import opened HandlebarsOpcodes
  import opened HandlebarsExprs
  import opened HandlebarsEnvironments
  import opened HandlebarsStmts
  import opened HandlebarsTable
  import opened HandlebarsOptions
  import opened HandlebarsTemplate

  ghost predicate Defined(f: Den) { forall w, c, d :: !f(w, c, d).Stuck? }

  predicate Textual(r: Res<Value>) { !r.Stuck? && (r.Ok? ==> Nullish(r.v) || r.v.Str?) }

  ghost predicate OptDefined(f: Option<Den>) { f.Some? ==> Defined(f.value) }

  /** Helpers are functions that give text when their programs are defined; getters, functions and escaping are defined. */
  ghost predicate Sound(rt: Runtime) {
    && (forall name :: rt.helper(name).Func? || Nullish(rt.helper(name)))
    && (forall w, v, name :: !rt.property(w, v, name).Stuck?)
    && (forall w, f, c :: !rt.apply(w, f, c).Stuck?)
    && (forall w, v :: !rt.escape(w, v).Stuck?)
    && (forall w, f, c, args, ho: HelperOptions :: OptDefined(ho.fn) && OptDefined(ho.inverse) ==> Textual(rt.call(w, f, c, args, ho)))
  }

  /** Every mustache is escaped. */
  predicate Escaped(body: seq<Stmt>)
    decreases body, 1
  {
    body == [] || (EscapedStmt(body[0]) && Escaped(body[1..]))
  }

  predicate EscapedStmt(s: Stmt)
    decreases s, 0
  {
    match s
    case Mustache(_, escaped) => escaped
    case Block(_, p, i) => EscapedOpt(p) && EscapedOpt(i)
    case _ => true
  }

  predicate EscapedOpt(p: Option<Program>)
    decreases p, 2
  {
    match p
    case None => true
    case Some(q) => Escaped(q.body)
  }

  // ----- expressions

  lemma {:induction false} LookupsDefined(rt: Runtime, w: World, v: Value, parts: seq<string>, falsy: bool)
    requires Sound(rt)
    ensures !LookupAll(rt, w, v, parts, falsy).Stuck?
    decreases |parts|
  {
    if parts != [] {
      var r := Lookup(rt, w, v, parts[0], falsy);
      if r.Ok? { LookupsDefined(rt, r.w, r.v, parts[1..], falsy); }
    }
  }

  lemma PathDefined(rt: Runtime, env: Env, p: Path, falsy: bool, w: World)
    requires Sound(rt)
    ensures !InterpPath(rt, env, p, falsy, w).Stuck?
  {
    hide LookupAll, Sound;
    LookupsDefined(rt, w, DataAt(rt, w, env.data, p.depth), p.parts, true);
    LookupsDefined(rt, w, ContextAt(env, p.depth), p.parts, falsy);
  }

  lemma {:induction false} ExprDefined(rt: Runtime, o: Options, env: Env, e: Expr, w: World)
    requires Sound(rt)
    ensures !InterpExpr(rt, o, env, e, w).Stuck?
    decreases e, 0
  {
    hide InterpPath, InterpSexpr, Sound;
    match e
    case PathE(p) => PathDefined(rt, env, p, false, w);
    case SubE(s) => SexprDefined(rt, o, env, s, true, None, None, w);
    case _ =>
  }

  lemma {:induction false} ParamsDefined(rt: Runtime, o: Options, env: Env, es: seq<Expr>, w: World)
    requires Sound(rt)
    ensures !InterpParams(rt, o, env, es, w).Stuck?
    decreases es, 0
  {
    hide InterpExpr, Sound;
    if es != [] {
      ExprDefined(rt, o, env, es[0], w);
      var r := InterpExpr(rt, o, env, es[0], w);
      if r.Ok? { ParamsDefined(rt, o, env, es[1..], r.w); }
    }
  }

  lemma {:induction false} PairsDefined(rt: Runtime, o: Options, env: Env, ps: seq<Pair>, ks: seq<Keyed<nat>>, w: World)
    requires Sound(rt) && Places(ks, ps)
    ensures !InterpPairs(rt, o, env, ps, ks, w).Stuck?
    decreases ps, 0, |ks|
  {
    hide InterpExpr, Sound;
    if ks != [] {
      var e := ps[ks[0].value].value;
      if e.UndefinedE? {
        PairsDefined(rt, o, env, ps, ks[1..], w);
      } else {
        ExprDefined(rt, o, env, e, w);
        var r := InterpExpr(rt, o, env, e, w);
        if r.Ok? { PairsDefined(rt, o, env, ps, ks[1..], r.w); }
      }
    }
  }

  lemma {:induction false} HashDefined(rt: Runtime, o: Options, env: Env, h: Hash, w: World)
    requires Sound(rt)
    ensures !InterpHash(rt, o, env, h, w).Stuck?
    decreases h, 1
  {
    hide InterpPairs, Sound, KeptFrom;
    match h
    case NoHash =>
    case Hash(ps) =>
      KeptPlaces(ps, 0);
      PairsDefined(rt, o, env, ps, KeptFrom(ps, 0), w);
  }

  lemma CallTextual(rt: Runtime, w: World, f: Value, c: Value, args: seq<Value>, ho: HelperOptions)
    requires Sound(rt) && OptDefined(ho.fn) && OptDefined(ho.inverse)
    ensures Textual(rt.call(w, f, c, args, ho))
  {
  }

  lemma OptionsDefined(name: string, hash: Value, fn: Option<Den>, inverse: Option<Den>, data: Value)
    requires OptDefined(fn) && OptDefined(inverse)
    ensures var ho := MakeOptions(name, hash, fn, inverse, data); OptDefined(ho.fn) && OptDefined(ho.inverse)
  {
  }

  lemma HelperFields(rt: Runtime, env: Env, p: Path, w: World)
    requires Sound(rt) && p.parts != []
    ensures !HelperOrField(rt, env, p, w).Stuck?
  {
    hide InterpPath;
    PathDefined(rt, env, p, false, w);
  }

  lemma AmbiguousDefined(rt: Runtime, env: Env, p: Path, fn: Option<Den>, inverse: Option<Den>, w: World)
    requires Sound(rt) && p.parts != [] && OptDefined(fn) && OptDefined(inverse)
    ensures !InterpAmbiguous(rt, env, p, fn, inverse, w).Stuck?
    ensures Truthy(rt.helper(p.parts[0])) ==> Textual(InterpAmbiguous(rt, env, p, fn, inverse, w))
  {
    hide InterpPath, MakeOptions, OptDefined, HelperOrField;
    HelperFields(rt, env, p, w);
    FoundHelper(rt, env, p, w);
    var r := HelperOrField(rt, env, p, w);
    if r.Ok? {
      var h := if Nullish(r.v) then rt.helper("helperMissing") else r.v;
      var ho := MakeOptions(p.parts[0], HashV([]), fn, inverse, env.data);
      OptionsDefined(p.parts[0], HashV([]), fn, inverse, env.data);
      CallTextual(rt, r.w, h, env.ctx, [], ho);
    }
  }

  lemma FoundHelper(rt: Runtime, env: Env, p: Path, w: World)
    requires Sound(rt) && p.parts != []
    ensures Truthy(rt.helper(p.parts[0])) ==> HelperOrField(rt, env, p, w) == Ok(w, rt.helper(p.parts[0])) && rt.helper(p.parts[0]).Func?
  {
    hide InterpPath;
  }

  lemma CalleeDefined(rt: Runtime, o: Options, env: Env, p: Path, w: World)
    requires Sound(rt)
    ensures !HelperCallee(rt, o, env, p, w).Stuck?
  {
    hide InterpPath;
    PathDefined(rt, env, p, true, w);
  }

  /** A head is defined, and gives text if it calls a helper. */
  lemma {:induction false} SexprDefined(rt: Runtime, o: Options, env: Env, s: Sexpr, isSub: bool, fn: Option<Den>, inverse: Option<Den>, w: World)
    requires Sound(rt) && OptDefined(fn) && OptDefined(inverse)
    ensures var r := InterpSexpr(rt, o, env, s, isSub, fn, inverse, w);
            !r.Stuck? && (Classify(s, isSub, o).Helper? ==> Textual(r))
    decreases s, 1
  {
    hide InterpPath, InterpParams, InterpHash, InterpAmbiguous, HelperCallee, MakeOptions, OptDefined;
    var p := CalleePath(s.callee);
    match Classify(s, isSub, o)
    case Simple =>
      PathDefined(rt, env, p, false, w);
    case Ambiguous =>
      AmbiguousDefined(rt, env, p, fn, inverse, w);
    case Helper =>
      CalleeDefined(rt, o, env, p, w);
      var r := HelperCallee(rt, o, env, p, w);
      if r.Ok? && !Nullish(r.v) {
        ParamsDefined(rt, o, env, s.params, r.w);
        var r2 := InterpParams(rt, o, env, s.params, r.w);
        if r2.Ok? {
          HashDefined(rt, o, env, s.hash, r2.w);
          var r3 := InterpHash(rt, o, env, s.hash, r2.w);
          if r3.Ok? {
            OptionsDefined(HelperName(p, o), r3.v, fn, inverse, env.data);
            CallTextual(rt, r3.w, r.v, env.ctx, r2.v, MakeOptions(HelperName(p, o), r3.v, fn, inverse, env.data));
          }
        }
      }
  }

  // ----- statements

  lemma BlockTextual(rt: Runtime, o: Options, env: Env, s: Sexpr, program: Option<Program>, inverse: Option<Program>, w: World)
    requires Sound(rt) && OptDefined(ProgDen(env, program)) && OptDefined(ProgDen(env, inverse))
    ensures Textual(InterpBlock(rt, o, env, s, program, inverse, w))
  {
    hide InterpSexpr, MakeOptions, OptDefined, InterpAmbiguous, ProgDen;
    var p := CalleePath(s.callee);
    var fn, inv := ProgDen(env, program), ProgDen(env, inverse);
    SexprDefined(rt, o, env, s, false, fn, inv, w);
    var r := InterpSexpr(rt, o, env, s, false, fn, inv, w);
    match Classify(s, false, o)
    case Helper =>
    case Simple =>
      OptionsDefined(p.original, HashV([]), fn, inv, env.data);
      if r.Ok? { CallTextual(rt, r.w, rt.helper("blockHelperMissing"), env.ctx, [r.v], MakeOptions(p.original, HashV([]), fn, inv, env.data)); }
    case Ambiguous =>
      AmbiguousDefined(rt, env, p, fn, inv, w);
      SexprIsAmbiguous(rt, o, env, s, fn, inv, w);
      OptionsDefined(p.parts[0], HashV([]), fn, inv, env.data);
      if r.Ok? { CallTextual(rt, r.w, rt.helper("blockHelperMissing"), env.ctx, [r.v], MakeOptions(p.parts[0], HashV([]), fn, inv, env.data)); }
  }

  lemma SexprIsAmbiguous(rt: Runtime, o: Options, env: Env, s: Sexpr, fn: Option<Den>, inverse: Option<Den>, w: World)
    requires Classify(s, false, o).Ambiguous?
    ensures CalleePath(s.callee).parts != [] && InterpSexpr(rt, o, env, s, false, fn, inverse, w) == InterpAmbiguous(rt, env, CalleePath(s.callee), fn, inverse, w)
  {
    hide InterpAmbiguous;
  }

  lemma {:induction false} BodyDefined(rt: Runtime, o: Options, env: Env, body: seq<Stmt>, w: World)
    requires Sound(rt) && !o.noEscape && Escaped(body)
    requires forall q :: q in BodyPrograms(body) ==> Defined(env.prog(q))
    ensures !InterpBody(rt, o, env, body, w).Stuck?
    decreases |body|
  {
    hide InterpStmt, Sound, Defined;
    if body != [] {
      assert BodyPrograms(body) == StmtPrograms(body[0]) + BodyPrograms(body[1..]);
      StmtDefined(rt, o, env, body[0], w);
      var r := InterpStmt(rt, o, env, body[0], w);
      if r.Ok? { BodyDefined(rt, o, env, body[1..], r.w); }
    }
  }

  lemma StmtDefined(rt: Runtime, o: Options, env: Env, s: Stmt, w: World)
    requires Sound(rt) && !o.noEscape && EscapedStmt(s)
    requires forall q :: q in StmtPrograms(s) ==> Defined(env.prog(q))
    ensures !InterpStmt(rt, o, env, s, w).Stuck?
  {
    hide InterpSexpr, InterpBlock, Defined;
    match s
    case Mustache(e, _) => SexprDefined(rt, o, env, e, false, None, None, w);
    case Block(e, p, i) =>
      BranchDefined(env, s, p);
      BranchDefined(env, s, i);
      BlockTextual(rt, o, env, e, p, i, w);
    case _ =>
  }

  lemma BranchDefined(env: Env, s: Stmt, p: Option<Program>)
    requires s.Block? && (p == s.program || p == s.inverse)
    requires forall q :: q in StmtPrograms(s) ==> Defined(env.prog(q))
    ensures OptDefined(ProgDen(env, p))
  {
    hide Defined;
    if p.Some? { assert p.value in StmtPrograms(s); }
  }

  // ----- programs

  /** Run with a sound container, a program whose mustaches are all escaped is defined whatever it is called with. */
  lemma {:induction false} ProgramDefined(rt: Runtime, o: Options, p: Program, ctx: Value, data: Value, depths: seq<Value>, w: World)
    requires Sound(rt) && !o.noEscape && Escaped(p.body)
    ensures !Interp(rt, o, p, ctx, data, depths, w).Stuck?
    decreases Depth(p), 1
  {
    hide InterpBody, Sound, BodyPrograms, Escaped;
    var env := Env(ctx, data, depths, q => ProgramDen(rt, o, Depth(p), q, data, depths));
    forall q | q in BodyPrograms(p.body) ensures Defined(env.prog(q)) { ChildDefined(rt, o, p, q, data, depths); }
    BodyDefined(rt, o, env, p.body, w);
  }

  lemma {:induction false} ChildDefined(rt: Runtime, o: Options, p: Program, q: Program, data: Value, depths: seq<Value>)
    requires Sound(rt) && !o.noEscape && Escaped(p.body) && q in BodyPrograms(p.body)
    ensures Defined(ProgramDen(rt, o, Depth(p), q, data, depths))
    decreases Depth(p), 0
  {
    hide InterpBody, Sound, BodyPrograms, Escaped;
    Inside(p.body, q);
    var f := ProgramDen(rt, o, Depth(p), q, data, depths);
    forall w, c, d ensures !f(w, c, d).Stuck? { ProgramDefined(rt, o, q, c, PickData(d, data), [c] + depths, w); }
  }

  lemma {:induction false} Inside(body: seq<Stmt>, q: Program)
    requires q in BodyPrograms(body)
    ensures Depth(q) <= BodyDepth(body) && (Escaped(body) ==> Escaped(q.body))
    decreases |body|
  {
    hide Depth;
    assert BodyPrograms(body) == StmtPrograms(body[0]) + BodyPrograms(body[1..]);
    if q in StmtPrograms(body[0]) { InsideStmt(body[0], q); } else { Inside(body[1..], q); }
  }

  lemma InsideStmt(s: Stmt, q: Program)
    requires q in StmtPrograms(s)
    ensures Depth(q) <= StmtDepth(s) && (EscapedStmt(s) ==> Escaped(q.body))
  {
    hide Depth, Escaped;
    assert s.program == Some(q) || s.inverse == Some(q);
    EscapedBranch(q);
  }

  lemma EscapedBranch(q: Program)
    ensures EscapedOpt(Some(q)) == Escaped(q.body)
  {
    hide Escaped;
  }

  /** So the code of such a template does exactly what the template means. */
  lemma EscapedExactly(rt: Runtime, o: Options, p: Program, fuel: nat, ctx: Value, data: Value, w: World)
    requires Monotone(rt) && Sound(rt) && DefaultOptions(o) && !o.noEscape && Escaped(p.body)
    requires WfProgram(p, o) && TreeFits(p, o) && Depth(p) <= fuel + 1
    ensures var r := CompileEnv(EnvOf(p, o), o, EMPTY_TABLE);
            r.Success? &&
            RunCode(rt, r.value.1, fuel, r.value.0, ctx, data, if UsesProgram(p, o) then Some([ctx]) else None, w) ==
            Interp(rt, o, p, ctx, data, [ctx], w)
  {
    hide Monotone, Sound, DefaultOptions, WfProgram, TreeFits, Depth, Interp, RunCode, CompileEnv, EnvOf, UsesProgram, Escaped;
    TemplateCorrect(rt, o, p, fuel, ctx, data, w);
    ProgramDefined(rt, o, p, ctx, data, [ctx], w);
  }
}

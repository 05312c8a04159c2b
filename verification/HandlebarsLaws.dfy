/** What single mustaches, paths and blocks come to in terms of what the runtime container does, in the reference meaning and in emitted code. */
module HandlebarsLaws {
  import opened Wrappers
  import opened HandlebarsHash
  import opened HandlebarsAst
  import opened HandlebarsRuntime
  import opened HandlebarsInterp
  import opened HandlebarsOpcodes
  import opened HandlebarsTarget
  import opened HandlebarsMachine
  import opened HandlebarsExprs
  import opened HandlebarsEnvironments
  import opened HandlebarsStmts
  import opened HandlebarsTable
  import opened HandlebarsOptions
  import opened HandlebarsTemplate

  // ----- what a program made of one mustache sees

  /** The program `{{path}}` or `{{{path}}}`. */
  function Show(path: Path, escaped: bool): Program { Program([Mustache(Sexpr(PathE(path), [], NoHash), escaped)]) }

  /** How a value is printed: escaped, or as the text it is, or as nothing if it is null or undefined. */
  ghost predicate Prints(rt: Runtime, o: Options, escaped: bool, w: World, v: Value, r: Res<Value>) {
    if escaped && !o.noEscape then
      match rt.escape(w, v)
      case Ok(w1, t) => r == Ok(w1, Str(t))
      case Threw(w1, e) => r == Threw(w1, e)
      case Stuck => r == Stuck
    else (v == Undefined || v == Null ==> r == Ok(w, Str(""))) && (v.Str? ==> r == Ok(w, v))
  }

  lemma OnePrints(rt: Runtime, o: Options, env: Env, path: Path, escaped: bool, w: World, w1: World, v: Value)
    requires InterpSexpr(rt, o, env, Sexpr(PathE(path), [], NoHash), false, None, None, w) == Ok(w1, v)
    ensures Prints(rt, o, escaped, w1, v, TextValue(InterpBody(rt, o, env, Show(path, escaped).body, w)))
  {
    hide InterpSexpr;
    var body := Show(path, escaped).body;
    assert body[1..] == [];
    var r := InterpStmt(rt, o, env, body[0], w);
    if r.Ok? { assert r.v + "" == r.v; }
  }

  /** `@name`, where no helper has that name and the frame is truthy: the property of the frame, unless it is null, undefined or a function. */
  lemma DataName(rt: Runtime, o: Options, env: Env, name: string, original: string, w: World, w1: World, v: Value)
    requires name != "" && name !in o.knownHelpers && !Truthy(rt.helper(name)) && Truthy(env.data)
    requires rt.property(w, env.data, name) == Ok(w1, v) && v != Undefined && v != Null && !v.Func?
    ensures InterpSexpr(rt, o, env, Sexpr(PathE(Path(true, 0, [name], original)), [], NoHash), false, None, None, w) == Ok(w1, v)
  {
    var path := Path(true, 0, [name], original);
    assert path.parts[1..] == [];
    assert LookupAll(rt, w, env.data, path.parts, true) == Ok(w1, v) by {
      assert LookupAll(rt, w1, v, [], true) == Ok(w1, v);
    }
  }

  /** A program that prints a data name prints it from the frame it runs with. */
  lemma DataShown(rt: Runtime, o: Options, name: string, original: string, escaped: bool, ctx: Value, data: Value, depths: seq<Value>,
                  w: World, w1: World, v: Value)
    requires name != "" && name !in o.knownHelpers && !Truthy(rt.helper(name))
    requires Truthy(data) && rt.property(w, data, name) == Ok(w1, v) && v != Undefined && v != Null && !v.Func?
    ensures Prints(rt, o, escaped, w1, v, Interp(rt, o, Show(Path(true, 0, [name], original), escaped), ctx, data, depths, w))
  {
    hide InterpBody, InterpSexpr, Prints;
    var path := Path(true, 0, [name], original);
    var p := Show(path, escaped);
    var env := Env(ctx, data, depths, q => ProgramDen(rt, o, Depth(p), q, data, depths));
    DataName(rt, o, env, name, original, w, w1, v);
    OnePrints(rt, o, env, path, escaped, w, w1, v);
  }

  /** The frame that a program runs with: the one it is called with, if that is truthy, else the one it was made with. */
  lemma CalledFrame(rt: Runtime, o: Options, bound: nat, name: string, original: string, escaped: bool, data: Value, depths: seq<Value>,
                    w: World, c: Value, d: Option<Value>, w1: World, v: Value)
    requires bound > 1 && name != "" && name !in o.knownHelpers && !Truthy(rt.helper(name))
    requires var frame := if d.Some? && Truthy(d.value) then d.value else data;
             Truthy(frame) && rt.property(w, frame, name) == Ok(w1, v) && v != Undefined && v != Null && !v.Func?
    ensures Prints(rt, o, escaped, w1, v, ProgramDen(rt, o, bound, Show(Path(true, 0, [name], original), escaped), data, depths)(w, c, d))
  {
    hide Interp, Prints;
    var path := Path(true, 0, [name], original);
    ShowDepth(path, escaped);
    CalledIs(rt, o, bound, Show(path, escaped), data, depths, w, c, d);
    DataShown(rt, o, name, original, escaped, c, if d.Some? && Truthy(d.value) then d.value else data, [c] + depths, w, w1, v);
  }

  /** What calling a program runs. */
  lemma CalledIs(rt: Runtime, o: Options, bound: nat, q: Program, data: Value, depths: seq<Value>, w: World, c: Value, d: Option<Value>)
    requires Depth(q) < bound
    ensures ProgramDen(rt, o, bound, q, data, depths)(w, c, d) ==
            Interp(rt, o, q, c, if d.Some? && Truthy(d.value) then d.value else data, [c] + depths, w)
  {
    assert ProgramDen(rt, o, bound, q, data, depths)(w, c, d) == Interp(rt, o, q, c, PickData(d, data), [c] + depths, w);
  }

  lemma ShowDepth(path: Path, escaped: bool)
    ensures Depth(Show(path, escaped)) == 1
  {
    var body := Show(path, escaped).body;
    assert body[1..] == [] && BodyDepth(body[1..]) == 0 && StmtDepth(body[0]) == 0;
  }

  /** The value can be printed in the model. */
  predicate Printable(rt: Runtime, o: Options, escaped: bool, w: World, v: Value) {
    if escaped && !o.noEscape then !rt.escape(w, v).Stuck? else v == Undefined || v == Null || v.Str?
  }

  /** So it is for the code in the table: the program that the code of `p` hands on for its child `k`. */
  lemma CalledFrameCode(rt: Runtime, o: Options, t: Table, fuel: nat, code: Compiled, e: Environment, p: Program, k: nat,
                        name: string, original: string, escaped: bool, data: Value, depths: seq<Value>, given: Option<seq<Value>>,
                        w: World, c: Value, d: Option<Value>, w1: World, v: Value)
    requires Monotone(rt) && DefaultOptions(o) && TableOk(t, o)
    requires CodeFor(t, o, e, code) && SameCode(e, EnvOf(p, o))
    requires WfProgram(p, o) && Depth(p) <= fuel + 1
    requires UsesProgram(p, o) ==> given == Some(depths)
    requires k < |BodyPrograms(p.body)| == |code.refs| && BodyPrograms(p.body)[k] == Show(Path(true, 0, [name], original), escaped)
    requires name != "" && name !in o.knownHelpers && !Truthy(rt.helper(name)) && Printable(rt, o, escaped, w1, v)
    requires var frame := if d.Some? && Truthy(d.value) then d.value else data;
             Truthy(frame) && rt.property(w, frame, name) == Ok(w1, v) && v != Undefined && v != Null && !v.Func?
    ensures Prints(rt, o, escaped, w1, v, CodeDen(rt, t, fuel, code.refs[k], data, given)(w, c, d))
  {
    hide Interp, InterpBody, InterpSexpr, ExecBody, Monotone, TableOk, SameCode, BodyPrograms, OpsBody, GoodEnv, Show, Depth, RunCode;
    var q := BodyPrograms(p.body)[k];
    ChildCorrect(rt, o, t, fuel, code, e, p, k, data, depths, given);
    ChildOf(p.body, o, k);
    DepthIs(p);
    ShowDepth(Path(true, 0, [name], original), escaped);
    CalledFrame(rt, o, Depth(p), name, original, escaped, data, depths, w, c, d, w1, v);
    assert ResLeq(ProgramDen(rt, o, Depth(p), q, data, depths)(w, c, d), CodeDen(rt, t, fuel, code.refs[k], data, given)(w, c, d));
  }

  lemma DepthIs(p: Program)
    ensures Depth(p) == 1 + BodyDepth(p.body)
  {
  }

  // ----- contexts and frames

  /** `{{this}}` prints the context a program is called with, `{{..}}` that of the program around it, and so on outwards. */
  lemma CalledContexts(rt: Runtime, o: Options, bound: nat, depth: nat, original: string, escaped: bool, data: Value, depths: seq<Value>,
                       w: World, c: Value, d: Option<Value>)
    requires bound > 1 && !(if depth == 0 then c else if depth <= |depths| then depths[depth - 1] else Undefined).Func?
    ensures Prints(rt, o, escaped, w, if depth == 0 then c else if depth <= |depths| then depths[depth - 1] else Undefined,
                   ProgramDen(rt, o, bound, Show(Path(false, depth, [], original), escaped), data, depths)(w, c, d))
  {
    hide Interp, Prints;
    var path := Path(false, depth, [], original);
    ShowDepth(path, escaped);
    CalledIs(rt, o, bound, Show(path, escaped), data, depths, w, c, d);
    ContextShown(rt, o, path, escaped, c, if d.Some? && Truthy(d.value) then d.value else data, [c] + depths, w);
  }

  lemma ContextShown(rt: Runtime, o: Options, path: Path, escaped: bool, ctx: Value, data: Value, depths: seq<Value>, w: World)
    requires path.parts == [] && depths != [] && depths[0] == ctx && !(if path.depth < |depths| then depths[path.depth] else Undefined).Func?
    ensures Prints(rt, o, escaped, w, if path.depth < |depths| then depths[path.depth] else Undefined, Interp(rt, o, Show(path, escaped), ctx, data, depths, w))
  {
    hide InterpBody, Prints;
    var p := Show(path, escaped);
    var env := Env(ctx, data, depths, q => ProgramDen(rt, o, Depth(p), q, data, depths));
    OnePrints(rt, o, env, path, escaped, w, w, if path.depth < |depths| then depths[path.depth] else Undefined);
  }

  /** `@../name` looks in the frame's parent: as many steps outwards as are written, or up to the first frame that is falsy. */
  lemma {:induction false} ParentFrames(rt: Runtime, w: World, frames: seq<Value>, depth: nat)
    requires |frames| > depth
    requires forall i :: 0 <= i < depth ==> frames[i + 1] == if Truthy(frames[i]) then rt.parent(w, frames[i]) else frames[i]
    ensures DataAt(rt, w, frames[0], depth) == frames[depth]
    decreases depth
  {
    if depth > 0 {
      if Truthy(frames[0]) { ParentFrames(rt, w, frames[1..], depth - 1); } else { StaysFalsy(frames, depth); }
    }
  }

  lemma {:induction false} StaysFalsy(frames: seq<Value>, depth: nat)
    requires |frames| > depth && !Truthy(frames[0])
    requires forall i :: 0 <= i < depth ==> (Truthy(frames[i]) || frames[i + 1] == frames[i])
    ensures frames[depth] == frames[0]
    decreases depth
  {
    if depth > 0 { StaysFalsy(frames, depth - 1); }
  }

  // ----- paths

  /** Lookups one after the other: each takes the property of the value before, unless that one ends the path. */
  ghost predicate Chain(rt: Runtime, parts: seq<string>, falsy: bool, ws: seq<World>, vs: seq<Value>) {
    && |ws| == |vs| == |parts| + 1
    && forall i :: 0 <= i < |parts| ==>
         if Ends(vs[i], falsy) then ws[i + 1] == ws[i] && vs[i + 1] == vs[i] else rt.property(ws[i], vs[i], parts[i]) == Ok(ws[i + 1], vs[i + 1])
  }

  /** Null and undefined end every path, and other values that count as false end that of a helper and of a data name. */
  predicate Ends(v: Value, falsy: bool) {
    v == Undefined || v == Null || (falsy && (v == Bool(false) || v == Str("") || v == Num("0") || v == Num("NaN")))
  }

  lemma {:induction false} ChainRead(rt: Runtime, parts: seq<string>, falsy: bool, ws: seq<World>, vs: seq<Value>)
    requires Chain(rt, parts, falsy, ws, vs)
    ensures LookupAll(rt, ws[0], vs[0], parts, falsy) == Ok(ws[|parts|], vs[|parts|])
    decreases |parts|
  {
    if parts != [] { ChainRead(rt, parts[1..], falsy, ws[1..], vs[1..]); }
  }

  /** A path of several names, or one written with `./` or `this`: the chain of properties from the context; a function it leads to is called with the context. */
  lemma FieldPath(rt: Runtime, o: Options, env: Env, path: Path, ws: seq<World>, vs: seq<Value>)
    requires !path.data && path.parts != [] && path.parts[0] != "" && !SimpleId(path)
    requires Chain(rt, path.parts, false, ws, vs)
    requires vs[0] == if path.depth == 0 then env.ctx else if path.depth < |env.depths| then env.depths[path.depth] else Undefined
    ensures var n, r := |path.parts|, InterpSexpr(rt, o, env, Sexpr(PathE(path), [], NoHash), false, None, None, ws[0]);
            r == if vs[n].Func? then rt.apply(ws[n], vs[n], env.ctx) else Ok(ws[n], vs[n])
  {
    hide LookupAll;
    ChainRead(rt, path.parts, false, ws, vs);
  }

  // ----- names and helpers

  /** What a helper is told of a mustache without parameters. */
  function Plain(name: string, data: Value): HelperOptions { HelperOptions(name, HashV([]), None, None, data) }

  /** `{{name}}`: the helper of that name, or else the context's property, or else `helperMissing`; a function is called, without
      arguments and with the context, and any other value is the result. */
  lemma SimpleName(rt: Runtime, o: Options, env: Env, name: string, w: World, w1: World, v: Value)
    requires name != "" && name !in o.knownHelpers && !ScopedId(Path(false, 0, [name], name)) && env.ctx != Undefined && env.ctx != Null
    requires if Truthy(rt.helper(name)) then w1 == w && v == rt.helper(name) else rt.property(w, env.ctx, name) == Ok(w1, v)
    ensures var f := if v == Undefined || v == Null then rt.helper("helperMissing") else v;
            InterpSexpr(rt, o, env, Sexpr(PathE(Path(false, 0, [name], name)), [], NoHash), false, None, None, w) ==
            if f.Func? then rt.call(w1, f, env.ctx, [], Plain(name, env.data)) else Ok(w1, f)
  {
    var path := Path(false, 0, [name], name);
    assert path.parts[1..] == [] && LookupAll(rt, w1, v, [], false) == Ok(w1, v);
    if !Truthy(rt.helper(name)) { assert LookupAll(rt, w, env.ctx, path.parts, false) == Ok(w1, v); }
  }

  /** A name that is declared to be that of a helper is one: it is called without looking at the context, and fails if there is none. */
  lemma KnownName(rt: Runtime, o: Options, env: Env, name: string, w: World)
    requires name in o.knownHelpers && !ScopedId(Path(false, 0, [name], name))
    ensures var f := rt.helper(name);
            InterpSexpr(rt, o, env, Sexpr(PathE(Path(false, 0, [name], name)), [], NoHash), false, None, None, w) ==
            if f == Undefined || f == Null then Threw(w, TYPE_ERROR) else rt.call(w, f, env.ctx, [], Plain(name, env.data))
  {
    assert InterpParams(rt, o, env, [], w) == Ok(w, []) && InterpHash(rt, o, env, NoHash, w) == Ok(w, HashV([]));
  }

  /** Parameters are evaluated from left to right. */
  ghost predicate InOrder(rt: Runtime, o: Options, env: Env, es: seq<Expr>, ws: seq<World>, vs: seq<Value>) {
    |vs| == |es| && |ws| == |es| + 1 && forall i :: 0 <= i < |es| ==> InterpExpr(rt, o, env, es[i], ws[i]) == Ok(ws[i + 1], vs[i])
  }

  lemma {:induction false} ParamsInOrder(rt: Runtime, o: Options, env: Env, es: seq<Expr>, ws: seq<World>, vs: seq<Value>)
    requires InOrder(rt, o, env, es, ws, vs)
    ensures InterpParams(rt, o, env, es, ws[0]) == Ok(ws[|es|], vs)
    decreases |es|
  {
    hide InterpExpr;
    if es != [] {
      ParamsInOrder(rt, o, env, es[1..], ws[1..], vs[1..]);
      assert [vs[0]] + vs[1..] == vs;
    }
  }

  /** The program of a branch that is not written: it prints nothing, whatever it is called with. */
  ghost predicate PrintsNothing(f: Option<Den>) { f.Some? && forall w, c, d :: f.value(w, c, d) == Ok(w, Str("")) }

  /** What a helper is given for the branches of a block: the programs that are written; one that is missing prints nothing; none without a block. */
  ghost predicate Branches(env: Env, program: Option<Program>, inverse: Option<Program>, ho: HelperOptions) {
    && (program.None? && inverse.None? ==> ho.fn == None && ho.inverse == None)
    && (program.Some? ==> ho.fn == Some(env.prog(program.value)))
    && (inverse.Some? ==> ho.inverse == Some(env.prog(inverse.value)))
    && (program.Some? && inverse.None? ==> PrintsNothing(ho.inverse))
    && (program.None? && inverse.Some? ==> PrintsNothing(ho.fn))
  }

  /** `{{name a b}}` or `{{#name a b}}`: the helper is called once, with the context, the parameters' values and its branches. */
  lemma HelperBlock(rt: Runtime, o: Options, env: Env, name: string, es: seq<Expr>, program: Option<Program>, inverse: Option<Program>,
                    ws: seq<World>, vs: seq<Value>) returns (ho: HelperOptions)
    requires name != "" && !ScopedId(Path(false, 0, [name], name)) && es != [] && InOrder(rt, o, env, es, ws, vs)
    requires Truthy(rt.helper(name))
    ensures ho.name == name && ho.hash == HashV([]) && ho.data == env.data && Branches(env, program, inverse, ho)
    ensures InterpBlock(rt, o, env, Sexpr(PathE(Path(false, 0, [name], name)), es, NoHash), program, inverse, ws[0]) ==
            rt.call(ws[|es|], rt.helper(name), env.ctx, vs, ho)
  {
    hide InterpParams, ScopedId;
    var path := Path(false, 0, [name], name);
    ParamsInOrder(rt, o, env, es, ws, vs);
    assert HelperCallee(rt, o, env, path, ws[0]) == Ok(ws[0], rt.helper(name)) && HelperName(path, o) == name;
    assert InterpHash(rt, o, env, NoHash, ws[|es|]) == Ok(ws[|es|], HashV([]));
    ho := MakeOptions(name, HashV([]), ProgDen(env, program), ProgDen(env, inverse), env.data);
  }

  /** `{{#name}}` where no helper has the name: the property, called if it is a function, goes to `blockHelperMissing` with the branches. */
  lemma FieldBlock(rt: Runtime, o: Options, env: Env, name: string, program: Program, inverse: Option<Program>, w: World, w1: World, v: Value)
      returns (ho: HelperOptions)
    requires name != "" && name !in o.knownHelpers && !ScopedId(Path(false, 0, [name], name)) && env.ctx != Undefined && env.ctx != Null
    requires !Truthy(rt.helper(name)) && rt.helper("blockHelperMissing").Func?
    requires rt.property(w, env.ctx, name) == Ok(w1, v) && v != Undefined && v != Null && !v.Func?
    ensures ho.name == name && ho.hash == HashV([]) && ho.data == env.data && Branches(env, Some(program), inverse, ho)
    ensures InterpBlock(rt, o, env, Sexpr(PathE(Path(false, 0, [name], name)), [], NoHash), Some(program), inverse, w) ==
            rt.call(w1, rt.helper("blockHelperMissing"), env.ctx, [v], ho)
  {
    var path := Path(false, 0, [name], name);
    assert path.parts[1..] == [] && LookupAll(rt, w1, v, [], false) == Ok(w1, v);
    assert LookupAll(rt, w, env.ctx, path.parts, false) == Ok(w1, v);
    ho := MakeOptions(name, HashV([]), ProgDen(env, Some(program)), ProgDen(env, inverse), env.data);
  }

  /** `{{#a.b}}`: what the path leads to, called with the context if it is a function, goes to `blockHelperMissing` with the branches. */
  lemma PathBlock(rt: Runtime, o: Options, env: Env, path: Path, program: Program, inverse: Option<Program>, ws: seq<World>, vs: seq<Value>)
      returns (ho: HelperOptions)
    requires !path.data && path.parts != [] && path.parts[0] != "" && !SimpleId(path) && rt.helper("blockHelperMissing").Func?
    requires Chain(rt, path.parts, false, ws, vs)
    requires vs[0] == if path.depth == 0 then env.ctx else if path.depth < |env.depths| then env.depths[path.depth] else Undefined
    ensures ho.name == path.original && ho.hash == HashV([]) && ho.data == env.data && Branches(env, Some(program), inverse, ho)
    ensures var n, r := |path.parts|, InterpBlock(rt, o, env, Sexpr(PathE(path), [], NoHash), Some(program), inverse, ws[0]);
            if vs[n].Func? then
              match rt.apply(ws[n], vs[n], env.ctx)
              case Ok(w, v) => r == rt.call(w, rt.helper("blockHelperMissing"), env.ctx, [v], ho)
              case Threw(w, e) => r == Threw(w, e)
              case Stuck => r == Stuck
            else r == rt.call(ws[n], rt.helper("blockHelperMissing"), env.ctx, [vs[n]], ho)
  {
    hide LookupAll;
    ChainRead(rt, path.parts, false, ws, vs);
    ho := MakeOptions(path.original, HashV([]), ProgDen(env, Some(program)), ProgDen(env, inverse), env.data);
  }

  // ----- what counts

  /** The values that count as false. */
  lemma FalsyValues(v: Value)
    ensures !Truthy(v) <==> Ends(v, true)
  {
  }

  /** A name is scoped if it begins with a dot or holds the word `this`. */
  lemma ScopedIs(path: Path)
    ensures ScopedId(path) <==>
            ((path.original != "" && path.original[0] == '.') || exists k :: 0 <= k <= |path.original| - 4 && ThisAt(path.original, k))
  {
    HasThisIs(path.original);
  }

  predicate ThisAt(s: string, k: nat) { k + 4 <= |s| && s[k..k + 4] == "this" && (k + 4 == |s| || !IsWordChar(s[k + 4])) }

  lemma {:induction false} HasThisIs(s: string)
    ensures HasThisWord(s) <==> exists k :: 0 <= k <= |s| - 4 && ThisAt(s, k)
    decreases |s|
  {
    if |s| >= 4 {
      HasThisIs(s[1..]);
      if ThisAt(s, 0) { assert s[..4] == s[0..4]; }
      if k :| 0 <= k <= |s| - 4 && ThisAt(s, k) {
        if k == 0 { assert s[..4] == s[0..4]; } else { ThisShifts(s, k - 1); }
      }
      if j :| 0 <= j <= |s[1..]| - 4 && ThisAt(s[1..], j) { ThisShifts(s, j); }
    }
  }

  lemma ThisShifts(s: string, j: nat)
    requires s != ""
    ensures ThisAt(s[1..], j) <==> ThisAt(s, j + 1)
  {
    if j + 5 <= |s| { assert s[1..][j..j + 4] == s[j + 1..j + 5]; }
  }

  // ----- and in emitted code

  /** Whatever a template of these means, its code does. */
  lemma CodePrints(rt: Runtime, o: Options, p: Program, fuel: nat, ctx: Value, data: Value, w: World, r: Res<Value>)
    requires Monotone(rt) && DefaultOptions(o) && WfProgram(p, o) && TreeFits(p, o) && Depth(p) <= fuel + 1
    requires Interp(rt, o, p, ctx, data, [ctx], w) == r && !r.Stuck?
    ensures var c := CompileEnv(EnvOf(p, o), o, EMPTY_TABLE);
            c.Success? && RunCode(rt, c.value.1, fuel, c.value.0, ctx, data, if UsesProgram(p, o) then Some([ctx]) else None, w) == r
  {
    hide Monotone, DefaultOptions, WfProgram, TreeFits, Depth, Interp, RunCode, CompileEnv, EnvOf, UsesProgram;
    TemplateCorrect(rt, o, p, fuel, ctx, data, w);
  }
}

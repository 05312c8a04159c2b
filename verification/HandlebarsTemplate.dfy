/** Whole templates: the compiled program table behaves as the syntax tree says. */
module HandlebarsTemplate {
  import opened Wrappers
  import opened HandlebarsAst
  import opened HandlebarsRuntime
  import opened HandlebarsInterp
  import opened HandlebarsOpcodes
  import opened HandlebarsTarget
  import opened HandlebarsMachine
  import opened HandlebarsExprs
  import opened HandlebarsEnvironments
  import opened HandlebarsStmts
  import opened HandlebarsOutput
  import opened HandlebarsProgram
  import opened HandlebarsTable
  import opened HandlebarsOptions

  // ----- the two meanings

  /** A helper may pass a data frame of its own to a program. */
  function PickData(d: Option<Value>, data: Value): Value {
    match d
    case None => data
    case Some(v) => if Truthy(v) then v else data
  }

  function TextValue(r: Res<string>): Res<Value> {
    match r
    case Ok(w, t) => Ok(w, Str(t))
    case Threw(w, e) => Threw(w, e)
    case Stuck => Stuck
  }

  /** The reference meaning of a program run with a context, a data frame and the chain of contexts. */
  function Interp(rt: Runtime, o: Options, p: Program, ctx: Value, data: Value, depths: seq<Value>, w: World): Res<Value>
    decreases Depth(p), 1
  {
    TextValue(InterpBody(rt, o, Env(ctx, data, depths, q => ProgramDen(rt, o, Depth(p), q, data, depths)), p.body, w))
  }

  function ProgramDen(rt: Runtime, o: Options, bound: nat, q: Program, data: Value, depths: seq<Value>): Den
    decreases bound, 0
  {
    if Depth(q) < bound then (w, c, d) => Interp(rt, o, q, c, PickData(d, data), [c] + depths, w)
    else (w, c, d) => Stuck
  }

  function FromOut(x: Out<Value>): Res<Value> {
    match x
    case Done(s, v) => Ok(s.w, v)
    case Fail(w, e) => Threw(w, e)
    case OutStuck => Stuck
  }

  /** Running emitted code; `fuel` bounds how deeply programs run inside programs. */
  function RunCode(rt: Runtime, t: Table, fuel: nat, c: Compiled, ctx: Value, data: Value, depths: Option<seq<Value>>, w: World): Res<Value>
    decreases fuel, 1
  {
    FromOut(ExecBody(rt, Frame(ctx, data, depths, ref => CodeDen(rt, t, fuel, ref, data, depths)), c.body, Locals(w), Undefined))
  }

  /** `wrapProgram`: the contexts are handed on only if the code says so and there are any. */
  function CodeDen(rt: Runtime, t: Table, fuel: nat, ref: ProgRef, data: Value, depths: Option<seq<Value>>): Den
    decreases fuel, 0
  {
    if fuel == 0 || ref.index !in t.programs then (w, c, d) => Stuck
    else (w, c, d) => RunCode(rt, t, fuel - 1, t.programs[ref.index], c, PickData(d, data),
                              if ref.passDepths && depths.Some? then Some([c] + depths.value) else None, w)
  }

  // ----- every child program is known

  predicate WfProgram(p: Program, o: Options)
    decreases p, 2
  {
    WfBody(p.body, o)
  }

  predicate WfBody(body: seq<Stmt>, o: Options)
    decreases body, 1
  {
    body == [] || (WfStmt(body[0], o) && WfChildren(body[0], o) && WfBody(body[1..], o))
  }

  predicate WfChildren(st: Stmt, o: Options)
    decreases st, 0
  {
    match st
    case Block(_, p, i) => WfOpt(p, o) && WfOpt(i, o)
    case _ => true
  }

  predicate WfOpt(p: Option<Program>, o: Options)
    decreases p, 3
  {
    match p
    case None => true
    case Some(q) => WfProgram(q, o)
  }

  /** Child `k` of a body: its environment, and what it inherits from the body. */
  lemma {:induction false} ChildOf(body: seq<Stmt>, o: Options, k: nat)
    requires k < |BodyPrograms(body)|
    ensures |EnvsBody(body, o)| == |BodyPrograms(body)|
    ensures EnvsBody(body, o)[k] == EnvOf(BodyPrograms(body)[k], o)
    ensures Depth(BodyPrograms(body)[k]) <= BodyDepth(body)
    ensures WfBody(body, o) ==> WfProgram(BodyPrograms(body)[k], o)
    ensures UsesProgram(BodyPrograms(body)[k], o) ==> UsesBody(body, o)
    decreases |body|
  {
    hide EnvOf, WfProgram, UsesProgram, UsesSexpr, WfStmt;
    EnvCount(body, o);
    var n := |StmtPrograms(body[0])|;
    if k >= n { ChildOf(body[1..], o, k - n); }
    FirstChildren(body[0], o);
  }

  lemma FirstChildren(st: Stmt, o: Options)
    ensures |EnvsStmt(st, o)| == |StmtPrograms(st)| == StmtSlots(st)
    ensures forall k :: 0 <= k < |StmtPrograms(st)| ==>
              EnvsStmt(st, o)[k] == EnvOf(StmtPrograms(st)[k], o) &&
              Depth(StmtPrograms(st)[k]) <= StmtDepth(st) &&
              (WfChildren(st, o) ==> WfProgram(StmtPrograms(st)[k], o)) &&
              (UsesProgram(StmtPrograms(st)[k], o) ==> UsesStmt(st, o))
  {
    hide EnvOf, WfProgram, UsesProgram, UsesSexpr, Depth;
    if st.Block? {
      OptChild(st.program, o);
      OptChild(st.inverse, o);
      assert StmtPrograms(st) == OptSeq(st.program) + OptSeq(st.inverse);
      assert EnvsStmt(st, o) == EnvsOpt(st.program, o) + EnvsOpt(st.inverse, o);
    }
  }

  lemma OptChild(p: Option<Program>, o: Options)
    ensures |EnvsOpt(p, o)| == |OptSeq(p)| == Slots(p)
    ensures p.Some? ==> EnvsOpt(p, o)[0] == EnvOf(p.value, o) && OptSeq(p)[0] == p.value && Depth(p.value) == OptDepth(p) &&
                        (WfOpt(p, o) ==> WfProgram(p.value, o)) && (UsesProgram(p.value, o) ==> UsesOpt(p, o))
  {
    hide EnvOf, WfProgram, UsesProgram, Depth;
  }

  lemma {:induction false} EnvCount(body: seq<Stmt>, o: Options)
    ensures |EnvsBody(body, o)| == |BodyPrograms(body)| == BodySlots(body)
    decreases |body|
  {
    hide EnvOf;
    if body != [] { EnvCount(body[1..], o); FirstChildren(body[0], o); }
  }

  /** If every child behaves alike then so do the children of each statement. */
  lemma {:induction false} ChildrenAgree(cc: Setting, env: Env, fr: Frame, body: seq<Stmt>, g: nat)
    requires g + |BodyPrograms(body)| <= |cc.refs|
    requires forall k :: 0 <= k < |BodyPrograms(body)| ==> DenLeq(env.prog(BodyPrograms(body)[k]), fr.prog(cc.refs[g + k]))
    ensures SameBodyPrograms(cc, env, fr, body, g)
    decreases |body|
  {
    hide DenLeq;
    if body != [] {
      var n := StmtSlots(body[0]);
      var ps := BodyPrograms(body);
      assert ps == StmtPrograms(body[0]) + BodyPrograms(body[1..]) && |StmtPrograms(body[0])| == n;
      forall k | 0 <= k < |BodyPrograms(body[1..])|
        ensures DenLeq(env.prog(BodyPrograms(body[1..])[k]), fr.prog(cc.refs[g + n + k]))
      {
        assert ps[n + k] == BodyPrograms(body[1..])[k];
      }
      ChildrenAgree(cc, env, fr, body[1..], g + n);
      FirstAgree(cc, env, fr, body[0], ps, g);
    }
  }

  lemma FirstAgree(cc: Setting, env: Env, fr: Frame, st: Stmt, ps: seq<Program>, g: nat)
    requires StmtPrograms(st) <= ps && g + |ps| <= |cc.refs|
    requires forall k :: 0 <= k < |ps| ==> DenLeq(env.prog(ps[k]), fr.prog(cc.refs[g + k]))
    ensures SamePrograms(cc, env, fr, st, g)
  {
    hide DenLeq;
    if st.Block? {
      if st.program.Some? {
        assert ps[0] == st.program.value;
        assert DenLeq(env.prog(ps[0]), fr.prog(cc.refs[g + 0]));
      }
      if st.inverse.Some? {
        var k := Slots(st.program);
        assert ps[k] == st.inverse.value;
        assert DenLeq(env.prog(ps[k]), fr.prog(cc.refs[g + k]));
      }
    }
  }

  // ----- running the table

  /** A program with the same opcodes as `e` fits `e`'s setting. */
  lemma SettingFits(o: Options, e: Environment, p: Program)
    requires DefaultOptions(o) && GoodEnv(e) && SameCode(e, EnvOf(p, o))
    ensures e.ops == OpsBody(p.body, 0, o)
    ensures |e.children| == |BodyPrograms(p.body)| == BodySlots(p.body)
    ensures e.isSimple ==> BodyOutputs(p.body) <= 1
    ensures e.useDepths == UsesBody(p.body, o)
  {
    BodyOps(p.body, 0, o);
    EnvCount(p.body, o);
    CompilerEnvGood(p, o);
    SameCodeUses(e, EnvOf(p, o));
  }

  lemma {:induction false} WfBodyStmts(body: seq<Stmt>, o: Options)
    requires WfBody(body, o)
    ensures forall k :: 0 <= k < |body| ==> WfStmt(body[k], o)
    decreases |body|
  {
    hide WfStmt;
    if body != [] { WfBodyStmts(body[1..], o); }
  }

  lemma TextLeq(r: Res<string>, x: Out<Value>)
    requires SimText("", r, x)
    ensures ResLeq(TextValue(r), FromOut(x))
  {
    if r.Ok? { assert "" + r.v == r.v; }
  }

  /** What has compiled fits. */
  lemma CodeFits(cc: Setting, body: seq<Stmt>, c: Compiled)
    requires BodySlots(body) <= |cc.refs| && CodeOf(cc, OpsBody(body, 0, cc.opts)) == Success(c.body)
    ensures BodyFits(body, cc.opts)
  {
    hide *;
    CodeIs(cc, OpsBody(body, 0, cc.opts));
    BodyCompiles(cc, body);
  }

  /** The code in a slot does what any program with the same opcodes means. */
  lemma {:induction false} RunCorrect(rt: Runtime, o: Options, t: Table, fuel: nat, c: Compiled, e: Environment, p: Program,
                                      ctx: Value, data: Value, depths: seq<Value>, given: Option<seq<Value>>, w: World)
    requires Monotone(rt) && DefaultOptions(o) && TableOk(t, o)
    requires CodeFor(t, o, e, c) && SameCode(e, EnvOf(p, o))
    requires WfProgram(p, o) && Depth(p) <= fuel + 1
    requires UsesProgram(p, o) ==> given == Some(depths)
    ensures ResLeq(Interp(rt, o, p, ctx, data, depths, w), RunCode(rt, t, fuel, c, ctx, data, given, w))
    decreases fuel, 1
  {
    hide InterpBody, ExecBody, CodeOf, Monotone, TableOk, SameCode, ResLeq, DenLeq, BodyPrograms, OpsBody, SameBodyPrograms, GoodEnv;
    var cc := Setting(e.isSimple, e.useDepths, c.refs, o);
    var env := Env(ctx, data, depths, q => ProgramDen(rt, o, Depth(p), q, data, depths));
    var fr := Frame(ctx, data, given, ref => CodeDen(rt, t, fuel, ref, data, given));
    SettingFits(o, e, p);
    var ps := BodyPrograms(p.body);
    forall k | 0 <= k < |ps| ensures DenLeq(env.prog(ps[k]), fr.prog(cc.refs[0 + k])) {
      ChildCorrect(rt, o, t, fuel, c, e, p, k, data, depths, given);
    }
    ChildrenAgree(cc, env, fr, p.body, 0);
    WfBodyStmts(p.body, o);
    CodeFits(cc, p.body, c);
    ProgramCorrect(cc, rt, env, fr, p.body, w);
    TextLeq(InterpBody(rt, o, env, p.body, w), ExecBody(rt, fr, c.body, Locals(w), Undefined));
  }

  lemma {:induction false} ChildCorrect(rt: Runtime, o: Options, t: Table, fuel: nat, c: Compiled, e: Environment, p: Program, k: nat,
                                        data: Value, depths: seq<Value>, given: Option<seq<Value>>)
    requires Monotone(rt) && DefaultOptions(o) && TableOk(t, o)
    requires CodeFor(t, o, e, c) && SameCode(e, EnvOf(p, o))
    requires WfProgram(p, o) && Depth(p) <= fuel + 1
    requires UsesProgram(p, o) ==> given == Some(depths)
    requires k < |BodyPrograms(p.body)| == |c.refs|
    ensures DenLeq(ProgramDen(rt, o, Depth(p), BodyPrograms(p.body)[k], data, depths), CodeDen(rt, t, fuel, c.refs[k], data, given))
    decreases fuel, 0
  {
    hide InterpBody, ExecBody, CodeOf, Monotone, ResLeq, SameBodyPrograms, Interp, RunCode, BodyPrograms, GoodEnv;
    var q, ref := BodyPrograms(p.body)[k], c.refs[k];
    SettingFits(o, e, p);
    ChildOf(p.body, o, k);
    SameChild(e.children, EnvsBody(p.body, o), k);
    var i := ref.index;
    SameCodeTrans(t.environments[i], e.children[k], EnvOf(q, o));
    var a, b := ProgramDen(rt, o, Depth(p), q, data, depths), CodeDen(rt, t, fuel, ref, data, given);
    forall w, v, d ensures ResLeq(a(w, v, d), b(w, v, d)) {
      var given1 := if ref.passDepths && given.Some? then Some([v] + given.value) else None;
      RunCorrect(rt, o, t, fuel - 1, t.programs[i], t.environments[i], q, v, PickData(d, data), [v] + depths, given1, w);
    }
  }

  /** For a template whose heads fit and whose names are read back, the compiler emits code, and running it gives the
      reference meaning of the tree: the same text, the same calls of helpers and getters in the same order, the same exceptions. */
  lemma TemplateCorrect(rt: Runtime, o: Options, p: Program, fuel: nat, ctx: Value, data: Value, w: World)
    requires Monotone(rt) && DefaultOptions(o) && WfProgram(p, o) && TreeFits(p, o)
    requires Depth(p) <= fuel + 1
    ensures var r := CompileEnv(EnvOf(p, o), o, EMPTY_TABLE);
            r.Success? &&
            ResLeq(Interp(rt, o, p, ctx, data, [ctx], w),
                   RunCode(rt, r.value.1, fuel, r.value.0, ctx, data, if UsesProgram(p, o) then Some([ctx]) else None, w))
  {
    hide *;
    EmptyTableOk(o);
    TemplateCompiles(p, o);
    CompilerEnvGood(p, o);
    CompileEnvOk(EnvOf(p, o), o, EMPTY_TABLE);
    SameCodeRefl(EnvOf(p, o));
    var (c, t) := CompileEnv(EnvOf(p, o), o, EMPTY_TABLE).value;
    RunCorrect(rt, o, t, fuel, c, EnvOf(p, o), p, ctx, data, [ctx], if UsesProgram(p, o) then Some([ctx]) else None, w);
  }
}

/** Which option sets let which templates compile, and what the program table of any template that compiles looks like. */
module HandlebarsOptions {
  import opened Wrappers
  import opened Numerals
  import opened HandlebarsHash
  import opened HandlebarsAst
  import opened HandlebarsOpcodes
  import opened HandlebarsTarget
  import opened HandlebarsMachine
  import opened HandlebarsTranslate
  import opened HandlebarsDiscipline
  import opened HandlebarsEnvironments
  import opened HandlebarsStmts
  import opened HandlebarsProgram
  import opened HandlebarsTable

  /** No opcode of a head fails in a program or in a program inside it. */
  predicate TreeFits(p: Program, o: Options)
    decreases p, 2
  {
    ListFits(p.body, o)
  }

  predicate ListFits(body: seq<Stmt>, o: Options)
    decreases body, 1
  {
    body == [] || (StmtFits(body[0], o) && ChildrenFit(body[0], o) && ListFits(body[1..], o))
  }

  predicate ChildrenFit(st: Stmt, o: Options)
    decreases st, 0
  {
    match st
    case Block(_, p, i) => OptFits(p, o) && OptFits(i, o)
    case _ => true
  }

  predicate OptFits(p: Option<Program>, o: Options)
    decreases p, 3
  {
    match p
    case None => true
    case Some(q) => TreeFits(q, o)
  }

  lemma {:induction false} FitsInside(body: seq<Stmt>, o: Options)
    requires ListFits(body, o)
    ensures BodyFits(body, o)
    decreases |body|
  {
    if body != [] { FitsInside(body[1..], o); }
  }

  // ----- one program

  lemma StmtFails(cc: Setting, s: Stmt, g: nat, st: State)
    requires Boundary(st) && !StmtFits(s, cc.opts)
    requires g + StmtSlots(s) <= |cc.refs|
    ensures Run(cc, OpsStmt(s, g, cc.opts), st).Failure?
  {
    hide Run, OpsSexpr;
    match s
    case Mustache(c, escaped) =>
      ExactlyIfFits(cc, c, false, None, None, JNull, JNull, st);
      RunConcat(cc, OpsSexpr(c, false, None, None, cc.opts), [if escaped && !cc.opts.noEscape then AppendEscaped else AppendValue], st);
    case Block(c, p, i) =>
      var gp, gi := Guid(p, g), Guid(i, g + Slots(p));
      var head := OpsSexpr(c, false, gp, gi, cc.opts);
      ExactlyIfFits(cc, c, false, gp, gi, ProgJ(cc, gp), ProgJ(cc, gi), st);
      var ops := OpsStmt(s, g, cc.opts);
      assert ops == head + ops[|head|..];
      RunConcat(cc, head, ops[|head|..], st);
  }

  lemma {:induction false} BodyFails(cc: Setting, body: seq<Stmt>, g: nat, st: State)
    requires Boundary(st) && !BodyFits(body, cc.opts)
    requires g + BodySlots(body) <= |cc.refs|
    ensures Run(cc, OpsBody(body, g, cc.opts), st).Failure?
    decreases |body|
  {
    hide Run, OpsStmt;
    var s, rest := body[0], body[1..];
    var ops := OpsStmt(s, g, cc.opts);
    RunConcat(cc, ops, OpsBody(rest, g + StmtSlots(s), cc.opts), st);
    if StmtFits(s, cc.opts) {
      RunStmt(cc, s, g, st);
      BodyFails(cc, rest, g + StmtSlots(s), Run(cc, ops, st).value);
    } else {
      StmtFails(cc, s, g, st);
    }
  }

  /** The opcodes of a program compile without error if and only if its heads fit: unless `stringParams` and `trackIds` are
      both on and there are parameters or hash pairs, or there is a hash key an array does not take. */
  lemma BodyCompiles(cc: Setting, body: seq<Stmt>)
    requires BodySlots(body) <= |cc.refs|
    ensures CompileOps(cc, OpsBody(body, 0, cc.opts)).Success? <==> BodyFits(body, cc.opts)
  {
    hide Run;
    if BodyFits(body, cc.opts) { CompileProgram(cc, body); } else { BodyFails(cc, body, 0, START); }
  }

  // ----- whole templates that compile

  lemma {:induction false} TreeCompilable(p: Program, o: Options)
    requires TreeFits(p, o)
    ensures Compilable(EnvOf(p, o), o)
    decreases p, 2
  {
    hide CodeOf, CompileOps;
    var e := EnvOf(p, o);
    CompilerEnvGood(p, o);
    BodyCompilable(p.body, o);
    BodyEnvsGood(p.body, o);
    FitsInside(p.body, o);
    forall refs: seq<ProgRef> | |refs| == |e.children|
      ensures CodeOf(Setting(e.isSimple, e.useDepths, refs, o), e.ops).Success?
    {
      BodyCompiles(Setting(e.isSimple, e.useDepths, refs, o), p.body);
      CodeIs(Setting(e.isSimple, e.useDepths, refs, o), e.ops);
    }
  }

  lemma {:induction false} BodyCompilable(body: seq<Stmt>, o: Options)
    requires ListFits(body, o)
    ensures Compilables(EnvsBody(body, o), o)
    decreases body, 1
  {
    hide EnvOf, Compilable;
    if body != [] {
      StmtCompilable(body[0], o);
      BodyCompilable(body[1..], o);
      CompilablesConcat(EnvsStmt(body[0], o), EnvsBody(body[1..], o), o);
    }
  }

  lemma {:induction false} StmtCompilable(st: Stmt, o: Options)
    requires ChildrenFit(st, o)
    ensures Compilables(EnvsStmt(st, o), o)
    decreases st, 0
  {
    hide EnvOf, Compilable;
    if st.Block? {
      OptCompilable(st.program, o);
      OptCompilable(st.inverse, o);
      CompilablesConcat(EnvsOpt(st.program, o), EnvsOpt(st.inverse, o), o);
    }
  }

  lemma {:induction false} OptCompilable(p: Option<Program>, o: Options)
    requires OptFits(p, o)
    ensures Compilables(EnvsOpt(p, o), o)
    decreases p, 3
  {
    hide EnvOf, Compilable;
    if p.Some? { TreeCompilable(p.value, o); }
  }

  lemma {:induction false} CompilablesConcat(a: seq<Environment>, b: seq<Environment>, o: Options)
    requires Compilables(a, o) && Compilables(b, o)
    ensures Compilables(a + b, o)
    decreases |a|
  {
    hide Compilable;
    if a == [] { assert a + b == b; } else { assert (a + b)[1..] == a[1..] + b; CompilablesConcat(a[1..], b, o); }
  }

  // ----- what is in the table has compiled

  /** Some slot holds a program that is recursively the same. */
  ghost predicate InTable(t: Table, e: Environment) {
    exists i :: i in t.environments && SameCode(t.environments[i], e)
  }

  ghost predicate AllInTable(t: Table, es: seq<Environment>) { forall k :: 0 <= k < |es| ==> InTable(t, es[k]) }

  lemma {:induction false} SameChild(cs: seq<Environment>, ds: seq<Environment>, k: nat)
    requires SameCodes(cs, ds) && k < |cs|
    ensures SameCode(cs[k], ds[k])
    decreases |cs|
  {
    if k > 0 { SameChild(cs[1..], ds[1..], k - 1); }
  }

  lemma ChildrenInTable(t: Table, o: Options, e: Environment, c: Compiled, f: Environment)
    requires CodeFor(t, o, e, c) && SameCode(e, f)
    ensures AllInTable(t, f.children) && |c.refs| == |f.children|
  {
    hide SameCode;
    assert SameCodes(e.children, f.children) by { Unfold(e, f); }
    forall k | 0 <= k < |f.children| ensures InTable(t, f.children[k]) {
      SameChild(e.children, f.children, k);
      SameCodeTrans(t.environments[c.refs[k].index], e.children[k], f.children[k]);
    }
  }

  lemma Unfold(e: Environment, f: Environment)
    requires SameCode(e, f)
    ensures e.ops == f.ops && SameCodes(e.children, f.children) && |e.children| == |f.children|
  {
  }

  /** A program whose code is in order in a table has compiled, and so have the programs inside it. */
  lemma {:induction false} TreeKnown(t: Table, o: Options, e: Environment, c: Compiled, p: Program)
    requires TableOk(t, o) && CodeFor(t, o, e, c) && SameCode(e, EnvOf(p, o))
    ensures TreeFits(p, o)
    decreases p, 2
  {
    hide CompileOps, SameCode, GoodEnv, InTable, BodyFits, ListFits;
    ChildrenInTable(t, o, e, c, EnvOf(p, o));
    Unfold(e, EnvOf(p, o));
    BodyEnvsGood(p.body, o);
    var cc := Setting(e.isSimple, e.useDepths, c.refs, o);
    CodeIs(cc, e.ops);
    BodyCompiles(cc, p.body);
    BodyKnown(t, o, p.body);
  }

  lemma {:induction false} BodyKnown(t: Table, o: Options, body: seq<Stmt>)
    requires TableOk(t, o) && AllInTable(t, EnvsBody(body, o)) && BodyFits(body, o)
    ensures ListFits(body, o)
    decreases body, 1
  {
    hide TableOk, InTable, EnvOf;
    if body != [] {
      var a, b := EnvsStmt(body[0], o), EnvsBody(body[1..], o);
      SplitInTable(t, a, b);
      StmtKnown(t, o, body[0]);
      BodyKnown(t, o, body[1..]);
    }
  }

  lemma {:induction false} StmtKnown(t: Table, o: Options, st: Stmt)
    requires TableOk(t, o) && AllInTable(t, EnvsStmt(st, o))
    ensures ChildrenFit(st, o)
    decreases st, 0
  {
    hide TableOk, InTable, EnvOf;
    if st.Block? {
      SplitInTable(t, EnvsOpt(st.program, o), EnvsOpt(st.inverse, o));
      OptKnown(t, o, st.program);
      OptKnown(t, o, st.inverse);
    }
  }

  lemma {:induction false} OptKnown(t: Table, o: Options, p: Option<Program>)
    requires TableOk(t, o) && AllInTable(t, EnvsOpt(p, o))
    ensures OptFits(p, o)
    decreases p, 3
  {
    hide EnvOf, SameCode, CodeFor;
    if p.Some? {
      assert InTable(t, EnvsOpt(p, o)[0]);
      var i :| i in t.environments && SameCode(t.environments[i], EnvOf(p.value, o));
      TreeKnown(t, o, t.environments[i], t.programs[i], p.value);
    }
  }

  lemma SplitInTable(t: Table, a: seq<Environment>, b: seq<Environment>)
    requires AllInTable(t, a + b)
    ensures AllInTable(t, a) && AllInTable(t, b)
  {
    hide InTable;
    forall k | 0 <= k < |a| ensures InTable(t, a[k]) { assert InTable(t, (a + b)[k]); }
    forall k | 0 <= k < |b| ensures InTable(t, b[k]) { assert InTable(t, (a + b)[|a| + k]); }
  }

  // ----- whole templates

  lemma EmptyTableOk(o: Options)
    ensures TableOk(EMPTY_TABLE, o) && NoDuplicates(EMPTY_TABLE)
  {
  }

  /** The compiler emits code for a template if and only if that holds of every head anywhere in it. */
  lemma TemplateCompiles(p: Program, o: Options)
    ensures CompileEnv(EnvOf(p, o), o, EMPTY_TABLE).Success? <==> TreeFits(p, o)
  {
    hide *;
    var e := EnvOf(p, o);
    EmptyTableOk(o);
    CompilerEnvGood(p, o);
    CompileEnvOk(e, o, EMPTY_TABLE);
    if TreeFits(p, o) {
      TreeCompilable(p, o);
    } else if CompileEnv(e, o, EMPTY_TABLE).Success? {
      var (c, t) := CompileEnv(e, o, EMPTY_TABLE).value;
      SameCodeRefl(e);
      TreeKnown(t, o, e, c, p);
    }
  }

  /** In the table of any template that compiles, whatever the options, no slot was overwritten and no two slots hold the
      same program. */
  lemma TemplateSlots(p: Program, o: Options)
    ensures var r := CompileEnv(EnvOf(p, o), o, EMPTY_TABLE);
            r.Success? ==> TableOk(r.value.1, o) && NoDuplicates(r.value.1) && CodeFor(r.value.1, o, EnvOf(p, o), r.value.0)
  {
    hide *;
    EmptyTableOk(o);
    CompilerEnvGood(p, o);
    CompileEnvOk(EnvOf(p, o), o, EMPTY_TABLE);
    if CompileEnv(EnvOf(p, o), o, EMPTY_TABLE).Success? { EnvNoDuplicates(EnvOf(p, o), o, EMPTY_TABLE); }
  }

  /** The template `{{a "b"}}` does not compile when both options are on. */
  lemma BothOptionsFail(o: Options)
    requires o.stringParams && o.trackIds
    ensures var p := Program([Mustache(Sexpr(PathE(Path(false, 0, ["a"], "a")), [StringE("b")], NoHash), true)]);
            CompileEnv(EnvOf(p, o), o, EMPTY_TABLE).Failure?
  {
    hide CompileEnv, EnvOf;
    var p := Program([Mustache(Sexpr(PathE(Path(false, 0, ["a"], "a")), [StringE("b")], NoHash), true)]);
    assert !TreeFits(p, o);
    TemplateCompiles(p, o);
  }

  function Call(pairs: seq<Pair>): Program { Program([Mustache(Sexpr(NamedPath("a"), [], Hash(pairs)), true)]) }

  function NamedPath(name: string): Expr { PathE(Path(false, 0, [name], name)) }

  lemma CallFits(ps: seq<Pair>, o: Options)
    requires |ps| == 1 && !ps[0].value.SubE?
    ensures TreeFits(Call(ps), o) <==> GoodOptions(o) && PairFits(ps[0], o)
  {
    hide PairFits;
    var s := Sexpr(NamedPath("a"), [], Hash(ps));
    assert ExprFits(ps[0].value, o) && Hash(ps).pairs != Hash([]).pairs;
    assert KeysFit(s, o) <==> PairFits(ps[0], o);
    assert Call(ps).body[1..] == [] && ListFits([], o);
    assert ListFits(Call(ps).body, o) <==> StmtFits(Call(ps).body[0], o);
  }

  /** `{{a length=b}}` does not compile, whatever the options, and neither does `{{a hasOwnProperty=b}}`. */
  lemma KeysFail(o: Options)
    ensures CompileEnv(EnvOf(Call([Pair("length", NamedPath("b"))]), o), o, EMPTY_TABLE).Failure?
    ensures CompileEnv(EnvOf(Call([Pair("hasOwnProperty", NamedPath("b"))]), o), o, EMPTY_TABLE).Failure?
  {
    hide CompileEnv, EnvOf, TreeFits;
    var p, q := Pair("length", NamedPath("b")), Pair("hasOwnProperty", NamedPath("b"));
    CallFits([p], o);
    CallFits([q], o);
    TemplateCompiles(Call([p]), o);
    TemplateCompiles(Call([q]), o);
  }

  /** `{{a length=5}}` compiles if and only if neither of the two options is on. */
  lemma LengthCompiles(o: Options)
    ensures CompileEnv(EnvOf(Call([Pair("length", NumberE("5"))]), o), o, EMPTY_TABLE).Success? <==> !o.trackIds && !o.stringParams
  {
    hide CompileEnv, EnvOf, TreeFits, Digits;
    var p := Pair("length", NumberE("5"));
    FiveIs();
    CallFits([p], o);
    TemplateCompiles(Call([p]), o);
  }

  lemma FiveIs()
    ensures Digits("5") == Some(5)
  {
    assert "5"[..0] == "";
  }
}

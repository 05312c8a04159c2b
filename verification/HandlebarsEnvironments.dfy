/** Environments: comparing them, and what every environment built by the compiler satisfies. */
module HandlebarsEnvironments {
  import opened Wrappers
  import opened HandlebarsAst
  import opened HandlebarsOpcodes

  // ----- comparing environments

  /** `MissingChild` is the TypeError of reading the opcodes of a child that is not there. */
  datatype Comparison = Same | Different | MissingChild

  function Equals(a: Environment, b: Environment): Comparison
    decreases a, 1
  {
    if a.ops != b.ops then Different else EqualChildren(a.children, b.children)
  }

  function EqualChildren(cs: seq<Environment>, ds: seq<Environment>): Comparison
    decreases cs, 0
  {
    if cs == [] then Same
    else if ds == [] then MissingChild
    else
      match Equals(cs[0], ds[0])
      case Same => EqualChildren(cs[1..], ds[1..])
      case c => c
  }

  // ----- what opcodes say about a program

  /** One more than the largest guid pushed. */
  function GuidBound(ops: seq<Op>): nat {
    if ops == [] then 0
    else Max(match ops[0] case PushProgram(Some(g)) => g + 1 case _ => 0, GuidBound(ops[1..]))
  }

  /** How many opcodes produce output. */
  function Outputs(ops: seq<Op>): nat {
    if ops == [] then 0
    else (if ops[0].AppendContent? || ops[0].AppendValue? || ops[0].AppendEscaped? then 1 else 0) + Outputs(ops[1..])
  }

  /** Some opcode selects an outer context. */
  predicate UsesOps(ops: seq<Op>) {
    ops != [] && ((ops[0].GetContext? && ops[0].depth != 0) || UsesOps(ops[1..]))
  }

  /** What every environment built by the compiler satisfies. */
  predicate GoodEnv(e: Environment)
    decreases e, 1
  {
    GuidBound(e.ops) == |e.children| && (e.isSimple ==> Outputs(e.ops) <= 1) &&
    e.useDepths == (UsesOps(e.ops) || AnyUse(e.children)) && GoodEnvs(e.children)
  }

  predicate GoodEnvs(es: seq<Environment>)
    decreases es, 0
  {
    es == [] || (GoodEnv(es[0]) && GoodEnvs(es[1..]))
  }

  predicate AnyUse(es: seq<Environment>) { es != [] && (es[0].useDepths || AnyUse(es[1..])) }

  lemma {:induction false} OpsConcat(a: seq<Op>, b: seq<Op>)
    ensures GuidBound(a + b) == Max(GuidBound(a), GuidBound(b))
    ensures Outputs(a + b) == Outputs(a) + Outputs(b)
    ensures UsesOps(a + b) == (UsesOps(a) || UsesOps(b))
    decreases |a|
  {
    if a == [] { assert a + b == b; } else { assert (a + b)[1..] == a[1..] + b; OpsConcat(a[1..], b); }
  }

  // ----- environments built by the compiler are good

  /** Opcodes that push no program and print nothing. */
  predicate Quiet(ops: seq<Op>) { GuidBound(ops) == 0 && Outputs(ops) == 0 }

  lemma QuietPath(p: Path, falsy: bool)
    ensures Quiet(OpsPath(p, falsy)) && UsesOps(OpsPath(p, falsy)) == (p.depth != 0)
  {
    var ops := OpsPath(p, falsy);
    assert ops == [ops[0]] + [ops[1]];
    OpsConcat([ops[0]], [ops[1]]);
    QuietOne(ops[0]);
    QuietOne(ops[1]);
  }

  lemma QuietOne(op: Op)
    ensures Outputs([op]) == if op.AppendContent? || op.AppendValue? || op.AppendEscaped? then 1 else 0
    ensures UsesOps([op]) == (op.GetContext? && op.depth != 0)
    ensures GuidBound([op]) == match op case PushProgram(Some(g)) => g + 1 case _ => 0
  {
    assert [op][1..] == [];
  }

  lemma {:induction false} QuietExpr(e: Expr, o: Options)
    ensures Quiet(OpsExpr(e, o)) && UsesOps(OpsExpr(e, o)) == UsesExpr(e, o)
    decreases e, 0
  {
    match e
    case PathE(p) => QuietPath(p, false);
    case SubE(s) => SexprOps(s, true, None, None, o);
    case _ => QuietOne(OpsExpr(e, o)[0]);
  }

  lemma {:induction false} QuietParam(e: Expr, o: Options)
    ensures Quiet(OpsParam(e, o)) && UsesOps(OpsParam(e, o)) == UsesExpr(e, o)
    decreases e, 1
  {
    QuietExpr(e, o);
    if o.stringParams {
      var a, b := GetContext(PathDepth(e)), PushStringParam(StringParamValue(e), KindOf(e));
      QuietOne(a);
      QuietOne(b);
      OpsConcat([a], [b]);
      assert [a] + [b] == [a, b];
      NoOps();
      OpsConcat([a, b], if e.SubE? then OpsExpr(e, o) else []);
    } else {
      QuietOne(PushId(KindOf(e), IdText(e)));
      OpsConcat(if o.trackIds then [PushId(KindOf(e), IdText(e))] else [], OpsExpr(e, o));
    }
  }

  lemma {:induction false} QuietParams(es: seq<Expr>, o: Options)
    ensures Quiet(OpsParams(es, o)) && UsesOps(OpsParams(es, o)) == AnyExpr(es, o)
    decreases es, 0
  {
    if es != [] {
      QuietParam(es[0], o);
      QuietParams(es[1..], o);
      OpsConcat(OpsParam(es[0], o), OpsParams(es[1..], o));
    }
  }

  lemma {:induction false} QuietPairs(ps: seq<Pair>, o: Options)
    ensures Quiet(OpsPairValues(ps, o)) && UsesOps(OpsPairValues(ps, o)) == AnyPair(ps, o)
    decreases ps, 0
  {
    if ps != [] {
      QuietParam(ps[0].value, o);
      QuietPairs(ps[1..], o);
      OpsConcat(OpsParam(ps[0].value, o), OpsPairValues(ps[1..], o));
    }
  }

  lemma {:induction false} QuietAssigns(ps: seq<Pair>)
    ensures Quiet(OpsAssigns(ps)) && !UsesOps(OpsAssigns(ps))
    decreases |ps|
  {
    if ps != [] {
      QuietAssigns(ps[..|ps| - 1]);
      QuietOne(AssignToHash(ps[|ps| - 1].key));
      OpsConcat([AssignToHash(ps[|ps| - 1].key)], OpsAssigns(ps[..|ps| - 1]));
    }
  }

  lemma {:induction false} QuietHash(h: Hash, o: Options)
    ensures Quiet(OpsHash(h, o))
    ensures UsesOps(OpsHash(h, o)) == (h.Hash? && AnyPair(h.pairs, o))
    decreases h, 1
  {
    match h
    case NoHash => QuietOne(EmptyHash);
    case Hash(ps) =>
      QuietPairs(ps, o);
      QuietAssigns(ps);
      QuietOne(PushHash);
      QuietOne(PopHash);
      OpsConcat([PushHash], OpsPairValues(ps, o));
      OpsConcat([PushHash] + OpsPairValues(ps, o), OpsAssigns(ps));
      OpsConcat([PushHash] + OpsPairValues(ps, o) + OpsAssigns(ps), [PopHash]);
  }

  function OptBound(p: Option<nat>): nat { match p case None => 0 case Some(g) => g + 1 }

  lemma TwoPrograms(p: Option<nat>, i: Option<nat>)
    ensures var ops := [PushProgram(p), PushProgram(i)];
            GuidBound(ops) == Max(OptBound(p), OptBound(i)) && Outputs(ops) == 0 && !UsesOps(ops)
  {
    QuietOne(PushProgram(p));
    QuietOne(PushProgram(i));
    OpsConcat([PushProgram(p)], [PushProgram(i)]);
    assert [PushProgram(p)] + [PushProgram(i)] == [PushProgram(p), PushProgram(i)];
  }

  lemma {:induction false} SexprOps(s: Sexpr, isSub: bool, p: Option<nat>, i: Option<nat>, o: Options)
    ensures var ops := OpsSexpr(s, isSub, p, i, o);
            GuidBound(ops) == (if Classify(s, isSub, o).Simple? then 0 else Max(OptBound(p), OptBound(i))) &&
            Outputs(ops) == 0 && UsesOps(ops) == UsesSexpr(s, isSub, o)
    decreases s, 1
  {
    var path := CalleePath(s.callee);
    QuietPath(path, false);
    match Classify(s, isSub, o)
    case Simple =>
      QuietOne(ResolvePossibleLambda);
      OpsConcat(OpsPath(path, false), [ResolvePossibleLambda]);
    case Ambiguous => AmbiguousOps(path, p, i);
    case Helper =>
      QuietParams(s.params, o);
      QuietHash(s.hash, o);
      HelperOps(s, p, i, o);
  }

  lemma AmbiguousOps(path: Path, p: Option<nat>, i: Option<nat>)
    requires path.parts != []
    ensures var ops := [GetContext(path.depth), PushProgram(p), PushProgram(i)] + OpsPath(path, false) + [InvokeAmbiguous(path.parts[0], p.Some? || i.Some?)];
            GuidBound(ops) == Max(OptBound(p), OptBound(i)) && Outputs(ops) == 0 && UsesOps(ops) == (path.depth != 0)
  {
    hide GuidBound, Outputs, UsesOps;
    var gc, pp := [GetContext(path.depth)], [PushProgram(p), PushProgram(i)];
    var invoke := InvokeAmbiguous(path.parts[0], p.Some? || i.Some?);
    TwoPrograms(p, i);
    QuietPath(path, false);
    QuietOne(GetContext(path.depth));
    QuietOne(invoke);
    OpsConcat(gc, pp);
    assert gc + pp == [GetContext(path.depth), PushProgram(p), PushProgram(i)];
    OpsConcat(gc + pp, OpsPath(path, false));
    OpsConcat(gc + pp + OpsPath(path, false), [invoke]);
  }

  lemma HelperOps(s: Sexpr, p: Option<nat>, i: Option<nat>, o: Options)
    requires Quiet(OpsParams(s.params, o)) && Quiet(OpsHash(s.hash, o))
    ensures var path := CalleePath(s.callee);
            var call := if KnownHelper(path, o) then [InvokeKnownHelper(|s.params|, path.parts[0])]
                        else OpsPath(path, true) + [InvokeHelper(|s.params|, path.original, SimpleId(path))];
            var ops := OpsParams(s.params, o) + [PushProgram(p), PushProgram(i)] + OpsHash(s.hash, o) + call;
            GuidBound(ops) == Max(OptBound(p), OptBound(i)) && Outputs(ops) == 0 &&
            UsesOps(ops) == (UsesOps(OpsParams(s.params, o)) || UsesOps(OpsHash(s.hash, o)) || (!KnownHelper(path, o) && path.depth != 0))
  {
    hide GuidBound, Outputs, UsesOps, OpsParams, OpsHash;
    var path := CalleePath(s.callee);
    var pp := [PushProgram(p), PushProgram(i)];
    TwoPrograms(p, i);
    QuietPath(path, true);
    var unknown := InvokeHelper(|s.params|, path.original, SimpleId(path));
    QuietOne(unknown);
    OpsConcat(OpsPath(path, true), [unknown]);
    if KnownHelper(path, o) { QuietOne(InvokeKnownHelper(|s.params|, path.parts[0])); }
    OpsConcat(OpsParams(s.params, o), pp);
    OpsConcat(OpsParams(s.params, o) + pp, OpsHash(s.hash, o));
    OpsConcat(OpsParams(s.params, o) + pp + OpsHash(s.hash, o),
              if KnownHelper(path, o) then [InvokeKnownHelper(|s.params|, path.parts[0])] else OpsPath(path, true) + [unknown]);
  }

  function StmtOutputs(st: Stmt): nat {
    if st.Comment? || (st.Content? && st.text == "") then 0 else 1
  }

  function BodyOutputs(body: seq<Stmt>): nat {
    if body == [] then 0 else StmtOutputs(body[0]) + BodyOutputs(body[1..])
  }

  predicate OwnUse(st: Stmt, o: Options) {
    match st
    case Mustache(s, _) => UsesSexpr(s, false, o)
    case Block(s, _, _) => UsesSexpr(s, false, o)
    case _ => false
  }

  lemma StmtOps(st: Stmt, g: nat, o: Options)
    ensures var ops := OpsStmt(st, g, o);
            GuidBound(ops) == (if StmtSlots(st) == 0 then 0 else g + StmtSlots(st)) &&
            Outputs(ops) == StmtOutputs(st) && UsesOps(ops) == OwnUse(st, o)
  {
    hide GuidBound, Outputs, UsesOps, OpsSexpr;
    match st
    case Content(t) => QuietOne(AppendContent(t)); NoOps();
    case Comment => NoOps();
    case Mustache(s, escaped) =>
      var op := if escaped && !o.noEscape then AppendEscaped else AppendValue;
      SexprOps(s, false, None, None, o);
      QuietOne(op);
      OpsConcat(OpsSexpr(s, false, None, None, o), [op]);
    case Block(s, p, i) => BlockOps(s, p, i, g, o);
  }

  lemma NoOps()
    ensures GuidBound([]) == 0 && Outputs([]) == 0 && !UsesOps([])
  {
  }

  lemma BlockOps(s: Sexpr, p: Option<Program>, i: Option<Program>, g: nat, o: Options)
    ensures var ops := OpsStmt(Block(s, p, i), g, o);
            var n := Slots(p) + Slots(i);
            GuidBound(ops) == (if n == 0 then 0 else g + n) && Outputs(ops) == 1 && UsesOps(ops) == UsesSexpr(s, false, o)
  {
    hide GuidBound, Outputs, UsesOps, OpsSexpr;
    var gp, gi := Guid(p, g), Guid(i, g + Slots(p));
    var first := OpsSexpr(s, false, gp, gi, o);
    SexprOps(s, false, gp, gi, o);
    QuietOne(AppendValue);
    TwoPrograms(gp, gi);
    QuietOne(EmptyHash);
    var last := if Classify(s, false, o).Simple? then BlockValue(CalleePath(s.callee).original) else AmbiguousBlockValue;
    QuietOne(last);
    NoOps();
    OpsConcat([PushProgram(gp), PushProgram(gi)], [EmptyHash]);
    OpsConcat([PushProgram(gp), PushProgram(gi)] + [EmptyHash], [last]);
    assert [PushProgram(gp), PushProgram(gi)] + [EmptyHash] + [last] == [PushProgram(gp), PushProgram(gi), EmptyHash, last];
    var mid := if Classify(s, false, o).Helper? then [] else [PushProgram(gp), PushProgram(gi), EmptyHash, last];
    OpsConcat(first, mid);
    OpsConcat(first + mid, [AppendValue]);
    assert OpsStmt(Block(s, p, i), g, o) == first + mid + [AppendValue];
  }

  function BodySlots(body: seq<Stmt>): nat {
    if body == [] then 0 else StmtSlots(body[0]) + BodySlots(body[1..])
  }

  predicate BodyOwnUse(body: seq<Stmt>, o: Options) {
    body != [] && (OwnUse(body[0], o) || BodyOwnUse(body[1..], o))
  }

  lemma {:induction false} BodyOps(body: seq<Stmt>, g: nat, o: Options)
    ensures var ops := OpsBody(body, g, o);
            GuidBound(ops) == (if BodySlots(body) == 0 then 0 else g + BodySlots(body)) &&
            Outputs(ops) == BodyOutputs(body) && UsesOps(ops) == BodyOwnUse(body, o)
    decreases |body|
  {
    hide GuidBound, Outputs, UsesOps, OpsStmt;
    NoOps();
    if body != [] {
      StmtOps(body[0], g, o);
      BodyOps(body[1..], g + StmtSlots(body[0]), o);
      OpsConcat(OpsStmt(body[0], g, o), OpsBody(body[1..], g + StmtSlots(body[0]), o));
    }
  }

  lemma {:induction false} EnvsConcat(a: seq<Environment>, b: seq<Environment>)
    ensures GoodEnvs(a + b) == (GoodEnvs(a) && GoodEnvs(b))
    ensures AnyUse(a + b) == (AnyUse(a) || AnyUse(b))
    decreases |a|
  {
    if a == [] { assert a + b == b; } else { assert (a + b)[1..] == a[1..] + b; EnvsConcat(a[1..], b); }
  }

  lemma {:induction false} CompilerEnvGood(p: Program, o: Options)
    ensures GoodEnv(EnvOf(p, o))
    ensures EnvOf(p, o).useDepths == UsesProgram(p, o)
    decreases p, 2
  {
    BodyOps(p.body, 0, o);
    BodyEnvsGood(p.body, o);
    if |p.body| == 1 { assert p.body[1..] == []; }
  }

  lemma {:induction false} BodyEnvsGood(body: seq<Stmt>, o: Options)
    ensures GoodEnvs(EnvsBody(body, o)) && |EnvsBody(body, o)| == BodySlots(body)
    ensures UsesBody(body, o) == (BodyOwnUse(body, o) || AnyUse(EnvsBody(body, o)))
    decreases body, 1
  {
    if body != [] {
      StmtEnvsGood(body[0], o);
      BodyEnvsGood(body[1..], o);
      EnvsConcat(EnvsStmt(body[0], o), EnvsBody(body[1..], o));
    }
  }

  lemma {:induction false} StmtEnvsGood(st: Stmt, o: Options)
    ensures GoodEnvs(EnvsStmt(st, o)) && |EnvsStmt(st, o)| == StmtSlots(st)
    ensures UsesStmt(st, o) == (OwnUse(st, o) || AnyUse(EnvsStmt(st, o)))
    decreases st, 0
  {
    if st.Block? {
      OptEnvsGood(st.program, o);
      OptEnvsGood(st.inverse, o);
      EnvsConcat(EnvsOpt(st.program, o), EnvsOpt(st.inverse, o));
    }
  }

  lemma {:induction false} OptEnvsGood(p: Option<Program>, o: Options)
    ensures GoodEnvs(EnvsOpt(p, o)) && |EnvsOpt(p, o)| == Slots(p)
    ensures UsesOpt(p, o) == AnyUse(EnvsOpt(p, o))
    decreases p, 3
  {
    if p.Some? {
      CompilerEnvGood(p.value, o);
      assert [EnvOf(p.value, o)][1..] == [];
    }
  }

  // ----- equality on environments built by the compiler

  /** Recursively the same opcodes. */
  predicate SameCode(a: Environment, b: Environment)
    decreases a, 1
  {
    a.ops == b.ops && SameCodes(a.children, b.children)
  }

  predicate SameCodes(cs: seq<Environment>, ds: seq<Environment>)
    decreases cs, 0
  {
    |cs| == |ds| && (cs == [] || (SameCode(cs[0], ds[0]) && SameCodes(cs[1..], ds[1..])))
  }

  /** Equal opcode lists force equal child counts, so the comparison never reads a missing child,
      and it answers whether the programs are recursively the same. */
  lemma {:induction false} EqualsDecides(a: Environment, b: Environment)
    requires GoodEnv(a) && GoodEnv(b)
    ensures Equals(a, b) == if SameCode(a, b) then Same else Different
    decreases a, 1
  {
    if a.ops == b.ops { EqualChildrenDecides(a.children, b.children); }
  }

  lemma {:induction false} EqualChildrenDecides(cs: seq<Environment>, ds: seq<Environment>)
    requires GoodEnvs(cs) && GoodEnvs(ds) && |cs| == |ds|
    ensures EqualChildren(cs, ds) == if SameCodes(cs, ds) then Same else Different
    decreases cs, 0
  {
    if cs != [] {
      EqualsDecides(cs[0], ds[0]);
      EqualChildrenDecides(cs[1..], ds[1..]);
    }
  }

  lemma {:induction false} SameCodeUses(a: Environment, b: Environment)
    requires GoodEnv(a) && GoodEnv(b) && SameCode(a, b)
    ensures a.useDepths == b.useDepths
    decreases a, 1
  {
    SameCodesUse(a.children, b.children);
  }

  lemma {:induction false} SameCodesUse(cs: seq<Environment>, ds: seq<Environment>)
    requires GoodEnvs(cs) && GoodEnvs(ds) && SameCodes(cs, ds)
    ensures AnyUse(cs) == AnyUse(ds)
    decreases cs, 0
  {
    if cs != [] {
      SameCodeUses(cs[0], ds[0]);
      SameCodesUse(cs[1..], ds[1..]);
    }
  }

  lemma {:induction false} SameCodeRefl(a: Environment)
    ensures SameCode(a, a)
    decreases a, 1
  {
    SameCodesRefl(a.children);
  }

  lemma {:induction false} SameCodesRefl(cs: seq<Environment>)
    ensures SameCodes(cs, cs)
    decreases cs, 0
  {
    if cs != [] {
      SameCodeRefl(cs[0]);
      SameCodesRefl(cs[1..]);
    }
  }

  lemma {:induction false} SameCodeTrans(a: Environment, b: Environment, c: Environment)
    requires SameCode(a, b) && SameCode(b, c)
    ensures SameCode(a, c)
    decreases a, 1
  {
    SameCodesTrans(a.children, b.children, c.children);
  }

  lemma {:induction false} SameCodesTrans(a: seq<Environment>, b: seq<Environment>, c: seq<Environment>)
    requires SameCodes(a, b) && SameCodes(b, c)
    ensures SameCodes(a, c)
    decreases a, 0
  {
    if a != [] {
      SameCodeTrans(a[0], b[0], c[0]);
      SameCodesTrans(a[1..], b[1..], c[1..]);
    }
  }
}

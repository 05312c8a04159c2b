/** The variables a generated function declares: they cover every temporary and register its lines mention. */
module HandlebarsLocals {
  import opened Wrappers
  import opened Sequences
  import opened HandlebarsAst
  import opened HandlebarsHash
  import opened HandlebarsOpcodes
  import opened HandlebarsTarget
  import M = HandlebarsMachine
  import opened HandlebarsMachine
  import opened HandlebarsTranslate
  import opened HandlebarsEnvironments
  import opened HandlebarsStmts

  /** `stack1` to `stackN`, and the registers in use. */
  datatype Declared = Declared(temps: nat, registers: set<M.Register>)

  function DeclaredBy(st: State): Declared { Declared(st.stackVars, st.registers) }

  /** The declarations of `st` are among `l`. */
  predicate Below(st: State, l: Declared) { st.stackVars <= l.temps && st.registers <= l.registers }

  // ----- what is mentioned is declared

  predicate In(e: JExpr, l: Declared)
    decreases e, 0
  {
    match e
    case JTemp(n) => 1 <= n <= l.temps
    case JSetTemp(n, a) => 1 <= n <= l.temps && In(a, l)
    case JHelperVar => HelperRegister in l.registers
    case JSetHelperVar(a) => HelperRegister in l.registers && In(a, l)
    case JSetOptions(o) => OptionsRegister in l.registers && OptionsIn(o, l)
    case JObject(ps) => PairsIn(ps, l)
    case JGet(a, _) => In(a, l)
    case JIfNotNull(a, b, c) => In(a, l) && In(b, l) && In(c, l)
    case JAnd(a, b) => In(a, l) && In(b, l)
    case JOr(a, b) => In(a, l) && In(b, l)
    case JLambda(a) => In(a, l)
    case JEscape(a) => In(a, l)
    case JComma(a, b) => In(a, l) && In(b, l)
    case JIfFunction(a, b, c) => In(a, l) && In(b, l) && In(c, l)
    case JCall(f, args, oa) => In(f, l) && AllIn(args, l) && ArgIn(oa, l)
    case _ => true
  }

  predicate AllIn(es: seq<JExpr>, l: Declared)
    decreases es, 0
  {
    forall k :: 0 <= k < |es| ==> In(es[k], l)
  }

  predicate PairsIn(ps: seq<JPair>, l: Declared)
    decreases ps, 0
  {
    forall k :: 0 <= k < |ps| ==> In(ps[k].value, l)
  }

  predicate FnIn(f: JFn, l: Declared)
    decreases f, 1
  {
    f.FnExpr? ==> In(f.e, l)
  }

  predicate OptionsIn(o: JOptions, l: Declared)
    decreases o, 1
  {
    In(o.hash, l) && FnIn(o.fn, l) && FnIn(o.inverse, l)
  }

  predicate ArgIn(oa: JOptionsArg, l: Declared)
    decreases oa, 1
  {
    match oa
    case Inline(o) => OptionsIn(o, l)
    case Register => OptionsRegister in l.registers
  }

  predicate LineIn(line: Line, l: Declared) {
    match line
    case Append(e) => In(e, l)
    case Exec(SetTemp(n, e)) => 1 <= n <= l.temps && In(e, l)
    case Exec(IfNoHelper(_, n, e)) => 1 <= n <= l.temps && In(e, l)
    case Exec(IfNotNullAppend(e)) => In(e, l)
    case Exec(IfNotNullReturn(e)) => In(e, l)
    case Exec(ElseReturnEmpty) => true
    case Exec(ReturnValue(e)) => In(e, l)
  }

  predicate LinesIn(ls: seq<Line>, l: Declared) { forall k :: 0 <= k < |ls| ==> LineIn(ls[k], l) }

  predicate EntriesIn(es: seq<Entry>, l: Declared) { forall k :: 0 <= k < |es| ==> In(es[k].e, l) }

  predicate StateIn(st: State, l: Declared) {
    EntriesIn(st.compileStack, l) && EntriesIn(st.inlineStack, l) && LinesIn(st.lines, l) &&
    (st.hash.Some? ==> PairsIn(st.hash.value, l)) && forall k :: 0 <= k < |st.hashes| ==> PairsIn(st.hashes[k], l)
  }

  // ----- the pieces of a step

  lemma PopIn(st: State, l: Declared)
    requires StateIn(st, l)
    ensures var r := PopStack(st);
            r.Success? ==> In(r.value.0, l) && StateIn(r.value.1, l) && DeclaredBy(r.value.1) == DeclaredBy(st)
  {
    hide In;
  }

  lemma {:induction false} PopManyIn(st: State, n: nat, l: Declared)
    requires StateIn(st, l)
    ensures var r := PopMany(st, n); r.Success? ==> StateIn(r.value, l) && DeclaredBy(r.value) == DeclaredBy(st)
    decreases n
  {
    hide PopStack, StateIn;
    if n > 0 {
      PopIn(st, l);
      if PopStack(st).Success? { PopManyIn(PopStack(st).value.1, n - 1, l); }
    }
  }

  lemma {:induction false} PopParamsIn(cc: Setting, st: State, n: nat, l: Declared)
    requires StateIn(st, l)
    ensures var r := PopParams(cc, st, n);
            r.Success? ==> AllIn(r.value.0, l) && StateIn(r.value.1, l) && DeclaredBy(r.value.1) == DeclaredBy(st)
    decreases n
  {
    hide PopStack, PopMany, StateIn, In;
    if n > 0 {
      PopIn(st, l);
      if PopStack(st).Success? {
        var st1 := PopStack(st).value.1;
        PopManyIn(st1, Extra(cc.opts), l);
        if PopMany(st1, Extra(cc.opts)).Success? { PopParamsIn(cc, PopMany(st1, Extra(cc.opts)).value, n - 1, l); }
      }
    }
  }

  lemma SetupIn(cc: Setting, st: State, name: string, n: nat, l: Declared)
    requires StateIn(st, l)
    ensures var r := SetupParams(cc, st, name, n);
            r.Success? ==> OptionsIn(r.value.0, l) && AllIn(r.value.1, l) && StateIn(r.value.2, l) && DeclaredBy(r.value.2) == DeclaredBy(st)
  {
    hide PopStack, PopMany, PopParams, StateIn, In, AllIn;
    if SetupParams(cc, st, name, n).Success? {
      PopIn(st, l);
      var st1 := PopStack(st).value.1;
      PopManyIn(st1, Extra(cc.opts), l);
      var st2 := PopMany(st1, Extra(cc.opts)).value;
      PopIn(st2, l);
      var st3 := PopStack(st2).value.1;
      PopIn(st3, l);
      PopParamsIn(cc, PopStack(st3).value.1, n, l);
    }
  }

  lemma PushIn(st: State, e: JExpr, l: Declared)
    requires StateIn(st, l) && In(e, l)
    ensures StateIn(Push(st, e), l) && StateIn(PushLit(st, e), l)
    ensures DeclaredBy(Push(st, e)) == DeclaredBy(st) && DeclaredBy(PushLit(st, e)) == DeclaredBy(st)
  {
    hide In;
  }

  lemma ReplaceIn(st: State, r: Rewrite, l: Declared)
    requires StateIn(st, l) && ReplaceStack(st, r).Success?
    ensures var st' := ReplaceStack(st, r).value;
            Grows(st, st') && (Below(st', l) ==> StateIn(st', l))
  {
    hide In, RewriteEntry;
    if Below(ReplaceStack(st, r).value, l) { RewriteIn(r, Last(st.inlineStack), st.stackSlot, l); }
  }

  lemma RewriteIn(r: Rewrite, top: Entry, slot: nat, l: Declared)
    requires In(top.e, l) && (top.Inl? ==> slot + 1 <= l.temps)
    ensures In(RewriteEntry(r, top, slot), l)
  {
  }

  /** Declarations are never taken back. */
  predicate Grows(st: State, st': State) { st.stackVars <= st'.stackVars && st.registers <= st'.registers }

  lemma {:induction false} ResolveIn(st: State, parts: seq<string>, falsy: bool, l: Declared)
    requires StateIn(st, l)
    ensures var r := ResolveParts(st, parts, falsy);
            r.Success? ==> Grows(st, r.value) && (Below(r.value, l) ==> StateIn(r.value, l))
    decreases |parts|
  {
    hide ReplaceStack, StateIn;
    if parts != [] {
      var rewrite := if falsy then FalsyGet(parts[0]) else GuardedGet(parts[0]);
      if ReplaceStack(st, rewrite).Success? {
        var st1 := ReplaceStack(st, rewrite).value;
        ReplaceIn(st, rewrite, l);
        ResolveGrows(st1, parts[1..], falsy);
        if ResolveParts(st1, parts[1..], falsy).Success? && Below(ResolveParts(st1, parts[1..], falsy).value, l) {
          ResolveIn(st1, parts[1..], falsy, l);
        }
      }
    }
  }

  lemma {:induction false} ResolveGrows(st: State, parts: seq<string>, falsy: bool)
    ensures var r := ResolveParts(st, parts, falsy); r.Success? ==> Grows(st, r.value)
    decreases |parts|
  {
    if parts != [] {
      var r := ReplaceStack(st, if falsy then FalsyGet(parts[0]) else GuardedGet(parts[0]));
      if r.Success? { ResolveGrows(r.value, parts[1..], falsy); }
    }
  }

  lemma SourceIn(cc: Setting, st: State, ls: seq<Line>, l: Declared)
    requires StateIn(st, l) && LinesIn(ls, l)
    ensures StateIn(PushSource(cc, st, ls), l) && DeclaredBy(PushSource(cc, st, ls)) == DeclaredBy(st)
  {
    assert LinesIn(FlushPending(cc, st), l);
    hide In, FlushPending, LineIn;
  }

  lemma {:induction false} FlushIn(cc: Setting, st: State, es: seq<Entry>, l: Declared)
    requires StateIn(st, l) && EntriesIn(es, l)
    ensures var st' := FlushEntries(cc, st, es); Grows(st, st') && (Below(st', l) ==> StateIn(st', l))
    decreases |es|
  {
    hide StateIn;
    if es != [] {
      var st1 := FlushFirst(cc, st, es[0], l);
      assert FlushEntries(cc, st, es) == FlushEntries(cc, st1, es[1..]);
      FlushGrows(cc, st1, es[1..]);
      if Below(FlushEntries(cc, st1, es[1..]), l) { FlushIn(cc, st1, es[1..], l); }
    }
  }

  lemma {:induction false} FlushGrows(cc: Setting, st: State, es: seq<Entry>)
    ensures Grows(st, FlushEntries(cc, st, es))
    decreases |es|
  {
    if es != [] {
      match es[0]
      case Lit(_) => FlushGrows(cc, st.(compileStack := st.compileStack + [es[0]]), es[1..]);
      case Inl(e) =>
        var st1 := IncrStack(st);
        var st2 := PushSource(cc, st1, [Exec(SetTemp(st1.stackSlot, e))]);
        FlushGrows(cc, st2.(compileStack := st2.compileStack + [Inl(JTemp(st1.stackSlot))]), es[1..]);
    }
  }

  lemma FlushFirst(cc: Setting, st: State, e: Entry, l: Declared) returns (st1: State)
    requires StateIn(st, l) && In(e.e, l)
    ensures Grows(st, st1) && (Below(st1, l) ==> StateIn(st1, l))
    ensures forall es :: es != [] && es[0] == e ==> FlushEntries(cc, st, es) == FlushEntries(cc, st1, es[1..])
  {
    hide In;
    match e
    case Lit(_) => st1 := st.(compileStack := st.compileStack + [e]);
    case Inl(x) =>
      var up := IncrStack(st);
      var line := Exec(SetTemp(up.stackSlot, x));
      var emitted := PushSource(cc, up, [line]);
      st1 := emitted.(compileStack := emitted.compileStack + [Inl(JTemp(up.stackSlot))]);
      if Below(st1, l) {
        TempIn(up.stackSlot, l);
        SourceIn(cc, up, [line], l);
      }
  }

  lemma TempIn(n: nat, l: Declared)
    ensures In(JTemp(n), l) == (1 <= n <= l.temps)
  {
  }

  lemma {:induction false} SetKeyIn(ps: seq<JPair>, key: string, v: JExpr, l: Declared)
    requires PairsIn(ps, l) && In(v, l)
    ensures PairsIn(SetKey(ps, key, v), l)
    decreases |ps|
  {
    hide In, Before;
    if ps != [] { SetKeyIn(ps[1..], key, v, l); }
  }

  lemma {:induction false} CutIn(ps: seq<JPair>, n: nat, l: Declared)
    requires PairsIn(ps, l)
    ensures PairsIn(Cut(ps, n), l)
    decreases |ps|
  {
    hide In, Within;
    if ps != [] { CutIn(ps[1..], n, l); }
  }

  lemma PutIn(ps: seq<JPair>, key: string, v: JExpr, l: Declared)
    requires PairsIn(ps, l) && In(v, l)
    ensures PairsIn(PutKey(ps, key, v), l)
  {
    hide In, PairsIn, SetKey, Cut;
    SetKeyIn(ps, key, v, l);
    CutIn(ps, ArrayLength(v).GetOr(0), l);
  }

  lemma {:induction false} DropIn(ps: seq<JPair>, l: Declared)
    requires PairsIn(ps, l)
    ensures PairsIn(DropUndefined(ps), l)
    decreases |ps|
  {
    hide In;
    if ps != [] { DropIn(ps[1..], l); }
  }

  lemma ObjectIn(ps: seq<JPair>, l: Declared)
    requires PairsIn(ps, l)
    ensures In(JObject(ps), l)
  {
  }

  // ----- one opcode

  /** What a step keeps, for any set of declarations that includes those it ends with. */
  ghost predicate Keeps(cc: Setting, op: Op, st: State, l: Declared) {
    var r := Step(cc, op, st);
    r.Success? ==> Grows(st, r.value) && (Below(r.value, l) ==> StateIn(r.value, l))
  }

  lemma StepIn(cc: Setting, op: Op, st: State, l: Declared)
    requires StateIn(st, l)
    ensures Keeps(cc, op, st, l)
  {
    hide Keeps, StateIn;
    match op
    case LookupOnContext(_, _, _) => LookupIn(cc, op, st, l);
    case LookupData(_, _) => LookupIn(cc, op, st, l);
    case EmptyHash => EmptyHashIn(cc, st, l);
    case PushHash => HashIn(cc, op, st, l);
    case PopHash => HashIn(cc, op, st, l);
    case AssignToHash(key) => AssignIn(cc, key, st, l);
    case ResolvePossibleLambda => LambdaIn(cc, st, l);
    case InvokeHelper(n, name, isSimple) => HelperIn(cc, n, name, isSimple, st, l);
    case InvokeKnownHelper(n, name) => KnownIn(cc, n, name, st, l);
    case InvokeAmbiguous(name, hc) => AmbiguousIn(cc, name, hc, st, l);
    case BlockValue(name) => BlockValueIn(cc, name, st, l);
    case AmbiguousBlockValue => AmbiguousBlockIn(cc, st, l);
    case AppendValue => AppendIn(cc, st, l);
    case AppendEscaped => EscapedIn(cc, st, l);
    case _ => LiteralIn(cc, op, st, l);
  }

  lemma LiteralIn(cc: Setting, op: Op, st: State, l: Declared)
    requires StateIn(st, l)
    requires op.GetContext? || op.PushContext? || op.PushString? || op.PushLiteral? || op.PushProgram? || op.AppendContent? || op.PushId? || op.PushStringParam?
    ensures Keeps(cc, op, st, l)
  {
    match op
    case PushStringParam(v, kind) =>
      var a, b := ContextExpr(cc, st.lastContext), JStr(KindText(kind));
      PushIn(st, a, l);
      PushIn(PushLit(st, a), b, l);
      PushIn(PushLit(PushLit(st, a), b), LiteralExpr(v), l);
    case GetContext(_) =>
    case AppendContent(_) =>
    case _ => PushedIn(cc, op, st, l);
  }

  lemma PushedIn(cc: Setting, op: Op, st: State, l: Declared)
    requires StateIn(st, l)
    requires op.PushContext? || op.PushString? || op.PushLiteral? || op.PushProgram? || op.PushId?
    ensures Keeps(cc, op, st, l)
  {
    hide StateIn;
    if Step(cc, op, st).Success? {
      var e := Last(Step(cc, op, st).value.inlineStack).e;
      assert In(e, l);
      PushIn(st, e, l);
    }
  }

  lemma LookupIn(cc: Setting, op: Op, st: State, l: Declared)
    requires StateIn(st, l) && (op.LookupOnContext? || op.LookupData?)
    ensures Keeps(cc, op, st, l)
  {
    var e := if op.LookupData? then JData(op.depth) else ContextExpr(cc, st.lastContext);
    assert In(e, l);
    hide StateIn, ResolveParts;
    PushIn(st, e, l);
    ResolveIn(PushLit(st, e), op.parts, if op.LookupData? then true else op.falsy, l);
  }

  lemma EmptyHashIn(cc: Setting, st: State, l: Declared)
    requires StateIn(st, l)
    ensures Keeps(cc, EmptyHash, st, l)
    ensures StateIn(PushEmptyHash(cc, st), l) && DeclaredBy(PushEmptyHash(cc, st)) == DeclaredBy(st)
  {
    var e := JObject([]);
    assert In(e, l);
    hide StateIn;
    var st1 := if cc.opts.trackIds then Push(st, e) else st;
    PushIn(st, e, l);
    PushIn(st1, e, l);
    PushIn(Push(st1, e), e, l);
    PushIn(Push(Push(st1, e), e), e, l);
  }

  lemma HashIn(cc: Setting, op: Op, st: State, l: Declared)
    requires StateIn(st, l) && (op.PushHash? || op.PopHash?)
    ensures Keeps(cc, op, st, l)
  {
    hide In;
    if op.PopHash? && st.hash.Some? {
      var e := JObject([]);
      ObjectIn([], l);
      DropIn(st.hash.value, l);
      ObjectIn(DropUndefined(st.hash.value), l);
      var st1 := if st.hashes == [] then st.(hash := None) else st.(hash := Some(Last(st.hashes)), hashes := Front(st.hashes));
      assert StateIn(st1, l);
      hide StateIn;
      var st2 := if cc.opts.trackIds then Push(st1, e) else st1;
      PushIn(st1, e, l);
      PushIn(st2, e, l);
      PushIn(Push(st2, e), e, l);
      var st3 := if cc.opts.stringParams then Push(Push(st2, e), e) else st2;
      PushIn(st3, JObject(DropUndefined(st.hash.value)), l);
    }
  }

  lemma AssignIn(cc: Setting, key: string, st: State, l: Declared)
    requires StateIn(st, l)
    ensures Keeps(cc, AssignToHash(key), st, l)
  {
    hide PopStack, PopMany, In;
    if StepAssign(cc, key, st).Success? {
      PopIn(st, l);
      var (v, st1) := PopStack(st).value;
      PopManyIn(st1, Extra(cc.opts), l);
      PutIn(PopMany(st1, Extra(cc.opts)).value.hash.value, key, v, l);
    }
  }

  lemma LambdaIn(cc: Setting, st: State, l: Declared)
    requires StateIn(st, l)
    ensures Keeps(cc, ResolvePossibleLambda, st, l)
  {
    hide PopStack, StateIn;
    PopIn(st, l);
    if PopStack(st).Success? {
      var (e, st1) := PopStack(st).value;
      assert In(JLambda(e), l);
      PushIn(st1, JLambda(e), l);
    }
  }

  lemma CallIn(f: JExpr, args: seq<JExpr>, o: JOptions, l: Declared)
    requires In(f, l) && AllIn(args, l) && OptionsIn(o, l)
    ensures In(JCall(f, args, Inline(o)), l)
  {
  }

  lemma NamedIn(name: string, nonHelper: JExpr, l: Declared)
    requires In(nonHelper, l)
    ensures In(JHelperNamed(name), l) && In(HelperLookup(name, nonHelper, true), l) && In(HelperLookup(name, nonHelper, false), l)
  {
  }

  lemma HelperIn(cc: Setting, n: nat, name: string, isSimple: bool, st: State, l: Declared)
    requires StateIn(st, l)
    ensures Keeps(cc, InvokeHelper(n, name, isSimple), st, l)
  {
    hide PopStack, SetupParams, StateIn, In, AllIn, OptionsIn, HelperLookup;
    PopIn(st, l);
    if PopStack(st).Success? {
      var (nonHelper, st1) := PopStack(st).value;
      SetupIn(cc, st1, name, n, l);
      if SetupParams(cc, st1, name, n).Success? {
        var (jo, args, st2) := SetupParams(cc, st1, name, n).value;
        NamedIn(name, nonHelper, l);
        CallIn(HelperLookup(name, nonHelper, isSimple), args, jo, l);
        PushIn(st2, JCall(HelperLookup(name, nonHelper, isSimple), args, Inline(jo)), l);
      }
    }
  }

  lemma KnownIn(cc: Setting, n: nat, name: string, st: State, l: Declared)
    requires StateIn(st, l)
    ensures Keeps(cc, InvokeKnownHelper(n, name), st, l)
  {
    hide SetupParams, StateIn, In, AllIn, OptionsIn;
    SetupIn(cc, st, name, n, l);
    if SetupParams(cc, st, name, n).Success? {
      var (jo, args, st1) := SetupParams(cc, st, name, n).value;
      PlainIn(l);
      NamedIn(name, JNull, l);
      CallIn(JHelperNamed(name), args, jo, l);
      PushIn(st1, JCall(JHelperNamed(name), args, Inline(jo)), l);
    }
  }

  lemma PlainIn(l: Declared)
    ensures In(JNull, l) && AllIn([], l)
  {
  }

  lemma AmbiguousIn(cc: Setting, name: string, hc: bool, st: State, l: Declared)
    requires StateIn(st, l)
    ensures Keeps(cc, InvokeAmbiguous(name, hc), st, l)
  {
    hide PopStack, SetupParams, PushEmptyHash, StateIn, In, OptionsIn, AmbiguousCall;
    PopIn(st, l);
    if PopStack(st).Success? {
      var (nonHelper, st1) := PopStack(st).value;
      EmptyHashIn(cc, st1, l);
      SetupIn(cc, PushEmptyHash(cc, st1), name, 0, l);
      if SetupParams(cc, PushEmptyHash(cc, st1), name, 0).Success? {
        var (jo, _, st2) := SetupParams(cc, PushEmptyHash(cc, st1), name, 0).value;
        if HelperRegister in l.registers && (hc ==> OptionsRegister in l.registers) {
          AmbiguousCallIn(name, nonHelper, jo, hc, l);
          PushIn(st2, AmbiguousCall(name, nonHelper, jo, hc), l);
          SameState(Push(st2, AmbiguousCall(name, nonHelper, jo, hc)), Step(cc, InvokeAmbiguous(name, hc), st).value, l);
        }
      }
    }
  }

  lemma AmbiguousCallIn(name: string, nonHelper: JExpr, jo: JOptions, hc: bool, l: Declared)
    requires In(nonHelper, l) && OptionsIn(jo, l) && HelperRegister in l.registers && (hc ==> OptionsRegister in l.registers)
    ensures In(AmbiguousCall(name, nonHelper, jo, hc), l)
  {
    var or := JOr(JHelperNamed(name), nonHelper);
    assert In(or, l);
    assert In(JSetHelperVar(or), l);
    assert In(JHelperNamed("helperMissing"), l) && In(JHelperVar, l);
    var chosen := JIfNotNull(JSetHelperVar(or), JHelperVar, JHelperNamed("helperMissing"));
    assert In(chosen, l);
    assert In(JSetHelperVar(chosen), l);
    var args: seq<JExpr> := [];
    assert AllIn(args, l);
    var arg := if hc then Register else Inline(jo);
    assert In(JCall(JHelperVar, args, arg), l);
    var call := JIfFunction(JHelperVar, JCall(JHelperVar, args, arg), JHelperVar);
    assert In(call, l);
    if hc { assert In(JSetOptions(jo), l); assert In(JComma(JSetOptions(jo), call), l); }
  }

  /** Other bookkeeping does not matter. */
  lemma SameState(st: State, st': State, l: Declared)
    requires StateIn(st, l) && st' == st.(lastHelper := st'.lastHelper, registers := st'.registers)
    ensures StateIn(st', l)
  {
    hide In;
  }

  lemma BlockValueIn(cc: Setting, name: string, st: State, l: Declared)
    requires StateIn(st, l)
    ensures Keeps(cc, BlockValue(name), st, l)
  {
    hide PopStack, SetupParams, StateIn, In, OptionsIn;
    SetupIn(cc, st, name, 0, l);
    if SetupParams(cc, st, name, 0).Success? {
      var (jo, _, st1) := SetupParams(cc, st, name, 0).value;
      PopIn(st1, l);
      if PopStack(st1).Success? {
        var (v, st2) := PopStack(st1).value;
        PlainIn(l);
        NamedIn("blockHelperMissing", JNull, l);
        CallIn(JHelperNamed("blockHelperMissing"), [v], jo, l);
        PushIn(st2, JCall(JHelperNamed("blockHelperMissing"), [v], Inline(jo)), l);
      }
    }
  }

  lemma AmbiguousBlockIn(cc: Setting, st: State, l: Declared)
    requires StateIn(st, l)
    ensures Keeps(cc, AmbiguousBlockValue, st, l)
  {
    hide SetupParams, FlushEntries, In;
    if StepAmbiguousBlockValue(cc, st).Success? {
      SetupIn(cc, st, "", 0, l);
      var st1 := SetupParams(cc, st, "", 0).value.2;
      FlushIn(cc, st1.(inlineStack := []), st1.inlineStack, l);
      var st2 := FlushInline(cc, st1);
      if Below(StepAmbiguousBlockValue(cc, st).value, l) {
        var top := Last(st2.compileStack).e;
        TempIn(top.n, l);
        MissingIn(st2.lastHelper.value, top, l);
        var line := Exec(IfNoHelper(st2.lastHelper.value, top.n, JCall(JHelperNamed("blockHelperMissing"), [top], Register)));
        SourceIn(cc, st2, [line], l);
        SameState(PushSource(cc, st2, [line]), StepAmbiguousBlockValue(cc, st).value, l);
      }
    }
  }

  lemma MissingIn(name: string, top: JExpr, l: Declared)
    requires In(top, l) && top.JTemp? && OptionsRegister in l.registers
    ensures LineIn(Exec(IfNoHelper(name, top.n, JCall(JHelperNamed("blockHelperMissing"), [top], Register))), l)
  {
  }

  lemma AppendIn(cc: Setting, st: State, l: Declared)
    requires StateIn(st, l)
    ensures Keeps(cc, AppendValue, st, l)
  {
    hide PopStack, ReplaceStack, In;
    if StepAppend(cc, st).Success? {
      if st.inlineStack != [] {
        var st1 := ReplaceStack(st, OrEmpty).value;
        ReplaceIn(st, OrEmpty, l);
        Untouched(st1);
        if Below(st1, l) {
          PopIn(st1, l);
          var (e, st2) := PopStack(st1).value;
          SourceIn(cc, st2, [AppendToBuffer(cc, e)], l);
        }
      } else {
        PopIn(st, l);
        var (e, st1) := PopStack(st).value;
        SourceIn(cc, st1, if cc.isSimple then [Exec(IfNotNullReturn(e)), Exec(ElseReturnEmpty)] else [Exec(IfNotNullAppend(e))], l);
      }
    }
  }

  lemma Untouched(st: State)
    ensures PopStack(st).Success? ==> DeclaredBy(PopStack(st).value.1) == DeclaredBy(st)
  {
  }

  lemma EscapedIn(cc: Setting, st: State, l: Declared)
    requires StateIn(st, l)
    ensures Keeps(cc, AppendEscaped, st, l)
  {
    hide PopStack, StateIn;
    PopIn(st, l);
    if PopStack(st).Success? {
      var (e, st1) := PopStack(st).value;
      assert In(JEscape(e), l);
      assert LineIn(AppendToBuffer(cc, JEscape(e)), l);
      SourceIn(cc, st1, [AppendToBuffer(cc, JEscape(e))], l);
    }
  }

  // ----- whole programs

  lemma {:induction false} PopManySame(st: State, n: nat)
    ensures PopMany(st, n).Success? ==> DeclaredBy(PopMany(st, n).value) == DeclaredBy(st)
    decreases n
  {
    if n > 0 && PopStack(st).Success? { PopManySame(PopStack(st).value.1, n - 1); }
  }

  lemma {:induction false} PopParamsSame(cc: Setting, st: State, n: nat)
    ensures PopParams(cc, st, n).Success? ==> DeclaredBy(PopParams(cc, st, n).value.1) == DeclaredBy(st)
    decreases n
  {
    hide PopStack, PopMany;
    Untouched(st);
    if n > 0 && PopStack(st).Success? {
      var st1 := PopStack(st).value.1;
      PopManySame(st1, Extra(cc.opts));
      if PopMany(st1, Extra(cc.opts)).Success? { PopParamsSame(cc, PopMany(st1, Extra(cc.opts)).value, n - 1); }
    }
  }

  lemma SetupSame(cc: Setting, st: State, name: string, n: nat)
    ensures SetupParams(cc, st, name, n).Success? ==> DeclaredBy(SetupParams(cc, st, name, n).value.2) == DeclaredBy(st)
  {
    hide PopStack, PopMany, PopParams;
    if SetupParams(cc, st, name, n).Success? {
      Untouched(st);
      var st1 := PopStack(st).value.1;
      PopManySame(st1, Extra(cc.opts));
      var st2 := PopMany(st1, Extra(cc.opts)).value;
      Untouched(st2);
      var st3 := PopStack(st2).value.1;
      Untouched(st3);
      PopParamsSame(cc, PopStack(st3).value.1, n);
    }
  }

  lemma StepGrows(cc: Setting, op: Op, st: State)
    ensures Step(cc, op, st).Success? ==> Grows(st, Step(cc, op, st).value)
  {
    hide PopStack, PopMany, SetupParams, ResolveParts, ReplaceStack, FlushEntries, PushEmptyHash, AmbiguousCall;
    if Step(cc, op, st).Success? {
      Untouched(st);
      match op
      case LookupOnContext(parts, falsy, _) => ResolveGrows(PushLit(st, ContextExpr(cc, st.lastContext)), parts, falsy);
      case LookupData(d, parts) => ResolveGrows(PushLit(st, JData(d)), parts, true);
      case EmptyHash => EmptyHashEntries(cc, st);
      case AssignToHash(_) => PopManySame(PopStack(st).value.1, Extra(cc.opts));
      case InvokeHelper(n, name, _) => SetupSame(cc, PopStack(st).value.1, name, n);
      case InvokeKnownHelper(n, name) => SetupSame(cc, st, name, n);
      case InvokeAmbiguous(name, _) =>
        EmptyHashEntries(cc, PopStack(st).value.1);
        SetupSame(cc, PushEmptyHash(cc, PopStack(st).value.1), name, 0);
      case BlockValue(name) =>
        SetupSame(cc, st, name, 0);
        Untouched(SetupParams(cc, st, name, 0).value.2);
      case AmbiguousBlockValue =>
        SetupSame(cc, st, "", 0);
        var st1 := SetupParams(cc, st, "", 0).value.2;
        FlushGrows(cc, st1.(inlineStack := []), st1.inlineStack);
      case AppendValue =>
        if st.inlineStack != [] {
          ReplaceGrows(st, OrEmpty);
          Untouched(ReplaceStack(st, OrEmpty).value);
        }
      case _ =>
    }
  }

  lemma ReplaceGrows(st: State, r: Rewrite)
    ensures ReplaceStack(st, r).Success? ==> Grows(st, ReplaceStack(st, r).value)
  {
  }

  lemma {:induction false} RunGrows(cc: Setting, ops: seq<Op>, st: State)
    ensures var r := Run(cc, ops, st); r.Success? ==> Grows(st, r.value)
    decreases |ops|
  {
    hide Step;
    if ops != [] {
      StepGrows(cc, ops[0], st);
      if Step(cc, ops[0], st).Success? { RunGrows(cc, ops[1..], Step(cc, ops[0], st).value); }
    }
  }

  lemma {:induction false} RunIn(cc: Setting, ops: seq<Op>, st: State, l: Declared)
    requires StateIn(st, l) && Run(cc, ops, st).Success? && Below(Run(cc, ops, st).value, l)
    ensures StateIn(Run(cc, ops, st).value, l)
    decreases |ops|
  {
    hide Step, StateIn;
    if ops != [] {
      var st1 := Step(cc, ops[0], st).value;
      StepIn(cc, ops[0], st, l);
      RunGrows(cc, ops[1..], st1);
      RunIn(cc, ops[1..], st1, l);
    }
  }

  /** Whatever opcodes compile, under whatever options: the temporaries and registers their lines read or write are declared. */
  lemma LinesDeclared(cc: Setting, ops: seq<Op>)
    requires CompileOps(cc, ops).Success?
    ensures LinesIn(CompileOps(cc, ops).value.lines, DeclaredBy(CompileOps(cc, ops).value))
  {
    hide Run, In, LineIn;
    var st := Run(cc, ops, START).value;
    var l := DeclaredBy(st);
    RunIn(cc, ops, START, l);
    SourceIn(cc, st, [], l);
  }

  /** So it is for every program of a template that compiles. */
  lemma ProgramDeclared(cc: Setting, body: seq<Stmt>)
    requires BodyFits(body, cc.opts)
    requires BodySlots(body) <= |cc.refs|
    ensures var r := CompileOps(cc, OpsBody(body, 0, cc.opts));
            r.Success? && LinesIn(BodyLines(cc, body, 0, ""), DeclaredBy(r.value))
  {
    hide *;
    CompileProgram(cc, body);
    LinesDeclared(cc, OpsBody(body, 0, cc.opts));
  }
}

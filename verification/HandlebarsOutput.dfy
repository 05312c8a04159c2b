/** Executing the emitted lines one by one prints what the reference interpreter prints. */
module HandlebarsOutput {
  import opened Wrappers
  import opened HandlebarsNames
  import opened HandlebarsAst
  import opened HandlebarsRuntime
  import opened HandlebarsInterp
  import opened HandlebarsOpcodes
  import opened HandlebarsTarget
  import opened HandlebarsMachine
  import opened HandlebarsTranslate
  import opened HandlebarsExprs
  import opened HandlebarsStmts
  import opened HandlebarsEnvironments

  /** Same world and value; nothing is said of the temporaries. */
  ghost predicate SimValue(r: Res<Value>, x: Out<Value>) {
    match r
    case Ok(w, v) => x.Done? && x.v == v && x.s.w == w
    case Threw(w, e) => x == Fail(w, e)
    case Stuck => true
  }

  /** `x` has printed `out` and then the interpreter's text. */
  ghost predicate SimText(out: string, r: Res<string>, x: Out<Value>) {
    match r
    case Ok(w, t) => x.Done? && x.v == Str(out + t) && x.s.w == w
    case Threw(w, e) => x == Fail(w, e)
    case Stuck => true
  }

  function Pieces(r: Res<Value>): Res<string> {
    match r
    case Ok(w, v) => Piece(w, v)
    case Threw(w, e) => Threw(w, e)
    case Stuck => Stuck
  }

  function Escaped(rt: Runtime, r: Res<Value>): Res<string> {
    match r
    case Ok(w, v) => rt.escape(w, v)
    case Threw(w, e) => Threw(w, e)
    case Stuck => Stuck
  }

  /** The code's view of a statement's child programs agrees with the interpreter's. */
  ghost predicate SamePrograms(cc: Setting, env: Env, fr: Frame, st: Stmt, g: nat) {
    g + StmtSlots(st) <= |cc.refs| &&
    (st.Block? ==>
       (st.program.Some? ==> DenLeq(env.prog(st.program.value), fr.prog(cc.refs[g]))) &&
       (st.inverse.Some? ==> DenLeq(env.prog(st.inverse.value), fr.prog(cc.refs[g + Slots(st.program)]))))
  }

  /** The names in a statement are read back, and a block has a program or an inverse. */
  predicate WfStmt(st: Stmt, o: Options) {
    match st
    case Mustache(c, _) => WfSexpr(c, false, o)
    case Block(c, p, i) => WfSexpr(c, false, o) && (p.Some? || i.Some?)
    case _ => true
  }

  // ----- one output line

  lemma EmitOne(cc: Setting, rt: Runtime, fr: Frame, e: JExpr, r: Res<string>, s: Store, out: string)
    requires cc.isSimple ==> out == ""
    requires match r case Ok(w, t) => (var x := Eval(rt, fr, e, s); x.Done? && x.v == Str(t) && x.s.w == w)
                     case Threw(w, err) => Eval(rt, fr, e, s) == Fail(w, err) case Stuck => true
    ensures SimText(out, r, ExecLines(rt, fr, [AppendToBuffer(cc, e)], s, out))
  {
    hide Named;
    var ls := [AppendToBuffer(cc, e)];
    assert ls[1..] == [];
    if r.Ok? { assert out + r.v == if cc.isSimple then r.v else out + r.v; }
  }

  lemma EmitEscaped(cc: Setting, rt: Runtime, fr: Frame, e: JExpr, r: Res<Value>, s: Store, out: string)
    requires cc.isSimple ==> out == ""
    requires SimValue(r, Eval(rt, fr, e, s))
    ensures SimText(out, Escaped(rt, r), ExecLines(rt, fr, [AppendToBuffer(cc, JEscape(e))], s, out))
  {
    hide Named;
    EmitOne(cc, rt, fr, JEscape(e), Escaped(rt, r), s, out);
  }

  lemma EmitUnescaped(cc: Setting, rt: Runtime, fr: Frame, e: JExpr, r: Res<Value>, s: Store, out: string)
    requires cc.isSimple ==> out == ""
    requires SimValue(r, Eval(rt, fr, e, s))
    ensures SimText(out, Pieces(r), ExecLines(rt, fr, Unescaped(cc, e), s, out))
  {
    hide Eval, SimValue, ExecLines, Pieces, Named;
    UnescapedValue(rt, fr, e, r, s);
    EmitOne(cc, rt, fr, RewriteEntry(OrEmpty, Inl(e), 0), Pieces(r), s, out);
  }

  lemma UnescapedValue(rt: Runtime, fr: Frame, e: JExpr, r: Res<Value>, s: Store)
    requires SimValue(r, Eval(rt, fr, e, s))
    ensures var y := RewriteEntry(OrEmpty, Inl(e), 0);
            match Pieces(r) case Ok(w, t) => (var x := Eval(rt, fr, y, s); x.Done? && x.v == Str(t) && x.s.w == w)
                            case Threw(w, err) => Eval(rt, fr, y, s) == Fail(w, err) case Stuck => true
  {
    hide Eval, Named;
    OrEmptyIs(rt, fr, e, s);
  }

  lemma OrEmptyIs(rt: Runtime, fr: Frame, e: JExpr, s: Store)
    ensures Eval(rt, fr, RewriteEntry(OrEmpty, Inl(e), 0), s) ==
            match Eval(rt, fr, e, s)
            case Done(s1, v) => Done(s1.(temps := s1.temps[1 := v]), if Nullish(v) then Str("") else v)
            case Fail(w, err) => Fail(w, err)
            case OutStuck => OutStuck
  {
    hide Named;
    var x := Eval(rt, fr, e, s);
    assert Eval(rt, fr, JSetTemp(1, e), s) == if x.Done? then Done(x.s.(temps := x.s.temps[1 := x.v]), x.v) else x;
  }

  // ----- values

  lemma SexprValue(cc: Setting, rt: Runtime, env: Env, fr: Frame, c: Sexpr, fn: JExpr, inverse: JExpr,
                   f: Option<Den>, i: Option<Den>, s: Store)
    requires Monotone(rt) && DefaultOptions(cc.opts) && SameView(cc, env, fr)
    requires WfSexpr(c, false, cc.opts) && (UsesSexpr(c, false, cc.opts) ==> cc.useDepths)
    requires FnIs(fr, fn, f) && FnIs(fr, inverse, i)
    ensures SimValue(InterpSexpr(rt, cc.opts, env, c, false, f, i, s.w), Eval(rt, fr, TSexpr(cc, c, false, fn, inverse, 0), s))
  {
    hide Eval, InterpSexpr, TSexpr, Named;
    if Classify(c, false, cc.opts).Ambiguous? {
      AmbiguousCorrect(cc, rt, env, fr, c, fn, inverse, f, i, 0, s);
    } else {
      SexprCorrect(cc, rt, env, fr, c, false, fn, inverse, f, i, 0, s);
    }
  }

  lemma BlockPrograms(cc: Setting, env: Env, fr: Frame, c: Sexpr, p: Option<Program>, i: Option<Program>, g: nat)
    requires SamePrograms(cc, env, fr, Block(c, p, i), g)
    ensures FnIs(fr, ProgJ(cc, Guid(p, g)), ProgDen(env, p))
    ensures FnIs(fr, ProgJ(cc, Guid(i, g + Slots(p))), ProgDen(env, i))
  {
  }

  /** `blockHelperMissing.call(depth0, value, options)` around a simulated value. */
  lemma BlockValueCorrect(rt: Runtime, env: Env, fr: Frame, e: JExpr, r: Res<Value>, name: string, fn: JExpr, inverse: JExpr,
                          f: Option<Den>, i: Option<Den>, s: Store)
    requires fr.ctx == env.ctx && fr.data == env.data && Monotone(rt)
    requires FnIs(fr, fn, f) && FnIs(fr, inverse, i)
    requires SimValue(r, Eval(rt, fr, e, s))
    ensures var jo := JOptions(name, JObject([]), FnOf(fn, inverse), FnOf(inverse, fn));
            var m := rt.helper("blockHelperMissing");
            SimValue(if Nullish(m) then Threw(s.w, TYPE_ERROR)
                     else match r case Ok(w, v) => rt.call(w, m, env.ctx, [v], MakeOptions(name, HashV([]), f, i, env.data))
                                  case Threw(w, x) => Threw(w, x) case Stuck => Stuck,
                     Eval(rt, fr, JCall(JHelperNamed("blockHelperMissing"), [e], Inline(jo)), s))
  {
    hide Eval, EvalOptions, Readable, Named;
    var jo := JOptions(name, JObject([]), FnOf(fn, inverse), FnOf(inverse, fn));
    OwnNames();
    NamedHelper(rt, fr, "blockHelperMissing", s);
    EvalOne(rt, fr, e, s);
    var m := rt.helper("blockHelperMissing");
    CallIs(rt, fr, JHelperNamed("blockHelperMissing"), [e], jo, m, s);
    if r.Ok? {
      var s1 := Eval(rt, fr, e, s).s;
      EmptyObject(rt, fr, s1);
      OptionsCorrect(rt, env, fr, jo, fn, inverse, f, i, Ok(s1.w, HashV([])), 0, s1);
      CallLeq(rt, s1.w, m, env.ctx, [r.v], MakeOptions(name, HashV([]), f, i, env.data), EvalOptions(rt, fr, jo, s1).v);
    }
  }

  lemma CallIs(rt: Runtime, fr: Frame, callee: JExpr, args: seq<JExpr>, jo: JOptions, f: Value, s: Store)
    requires Eval(rt, fr, callee, s) == Done(s, f)
    ensures Eval(rt, fr, JCall(callee, args, Inline(jo)), s) ==
            if Nullish(f) then Fail(s.w, TYPE_ERROR)
            else match EvalAll(rt, fr, args, s)
                 case Fail(w, x) => Fail(w, x)
                 case OutStuck => OutStuck
                 case Done(s1, vs) =>
                   match EvalOptions(rt, fr, jo, s1)
                   case Fail(w, x) => Fail(w, x)
                   case OutStuck => OutStuck
                   case Done(s2, ho) => Lift(s2, rt.call(s2.w, f, fr.ctx, vs, ho))
  {
    hide Named;
    var e := JCall(callee, args, Inline(jo));
    assert e.callee == callee && e.args == args && e.options == Inline(jo);
  }

  lemma EvalOne(rt: Runtime, fr: Frame, e: JExpr, s: Store)
    ensures EvalAll(rt, fr, [e], s) ==
            (match Eval(rt, fr, e, s) case Done(s1, v) => Done(s1, [v]) case Fail(w, x) => Fail(w, x) case OutStuck => OutStuck)
  {
    hide Named;
    assert [e][1..] == [];
    var x := Eval(rt, fr, e, s);
    if x.Done? { assert EvalAll(rt, fr, [], x.s) == Done(x.s, []); assert [x.v] + [] == [x.v]; }
  }

  // ----- ambiguous blocks: value in the first temporary, then the missing-helper test, then output

  lemma AmbiguousBlockCorrect(cc: Setting, rt: Runtime, env: Env, fr: Frame, c: Sexpr, fn: JExpr, inverse: JExpr,
                              f: Option<Den>, i: Option<Den>, s: Store, out: string)
    requires Monotone(rt) && DefaultOptions(cc.opts) && SameView(cc, env, fr)
    requires cc.isSimple ==> out == ""
    requires Classify(c, false, cc.opts).Ambiguous? && WfSexpr(c, false, cc.opts) && (UsesSexpr(c, false, cc.opts) ==> cc.useDepths)
    requires FnIs(fr, fn, f) && FnIs(fr, inverse, i) && (fn != JNull || inverse != JNull)
    ensures var p := CalleePath(c.callee);
            var lines := [Exec(SetTemp(1, TSexpr(cc, c, false, fn, inverse, 0))), Exec(IfNoHelper(p.parts[0], 1, MissingCall()))] + EmitTemp(cc);
            SimText(out, Pieces(AmbiguousBlockMeaning(rt, cc.opts, env, c, f, i, s.w)), ExecLines(rt, fr, lines, s, out))
  {
    hide Eval, InterpSexpr, TSexpr, Readable, Named;
    var name := CalleePath(c.callee).parts[0];
    EmptyReadable();
    var e := TSexpr(cc, c, false, fn, inverse, 0);
    var lines := [Exec(SetTemp(1, e)), Exec(IfNoHelper(name, 1, MissingCall()))] + EmitTemp(cc);
    AmbiguousCorrect(cc, rt, env, fr, c, fn, inverse, f, i, 0, s);
    var x := Eval(rt, fr, e, s);
    assert lines[0] == Exec(SetTemp(1, e));
    var r := InterpSexpr(rt, cc.opts, env, c, false, f, i, s.w);
    if r.Ok? {
      var s1 := x.s.(temps := x.s.temps[1 := x.v]);
      assert lines[1..] == [Exec(IfNoHelper(name, 1, MissingCall()))] + EmitTemp(cc);
      MissingTestCorrect(cc, rt, env, fr, name, x.v, MakeOptions(name, HashV([]), f, i, env.data), s1, out);
    }
  }

  function AmbiguousBlockMeaning(rt: Runtime, o: Options, env: Env, c: Sexpr, f: Option<Den>, i: Option<Den>, w: World): Res<Value>
    requires Classify(c, false, o).Ambiguous?
  {
    var name := CalleePath(c.callee).parts[0];
    var (w1, v) :- InterpSexpr(rt, o, env, c, false, f, i, w);
    if Truthy(rt.helper(name)) then Ok(w1, v)
    else BlockHelperMissing(rt, env, v, MakeOptions(name, HashV([]), f, i, env.data), w1)
  }

  lemma MissingTestCorrect(cc: Setting, rt: Runtime, env: Env, fr: Frame, name: string, v: Value, ho: HelperOptions, s: Store, out: string)
    requires cc.isSimple ==> out == ""
    requires Monotone(rt) && fr.ctx == env.ctx && Temp(s, 1) == v && s.options.Some? && OptionsLeq(ho, s.options.value) && Readable(name)
    ensures var r := if Truthy(rt.helper(name)) then Ok(s.w, v) else BlockHelperMissing(rt, env, v, ho, s.w);
            SimText(out, Pieces(r), ExecLines(rt, fr, [Exec(IfNoHelper(name, 1, MissingCall()))] + EmitTemp(cc), s, out))
  {
    hide Eval, Readable, Named;
    NameReadBack(name);
    var lines := [Exec(IfNoHelper(name, 1, MissingCall()))] + EmitTemp(cc);
    assert lines[1..] == EmitTemp(cc);
    if Truthy(rt.helper(name)) {
      EmitTempCorrect(cc, rt, fr, v, s, out);
    } else {
      MissingCallCorrect(rt, env, fr, v, ho, s);
      var x := Eval(rt, fr, MissingCall(), s);
      if x.Done? { EmitTempCorrect(cc, rt, fr, x.v, x.s.(temps := x.s.temps[1 := x.v]), out); }
    }
  }

  lemma MissingCallCorrect(rt: Runtime, env: Env, fr: Frame, v: Value, ho: HelperOptions, s: Store)
    requires Monotone(rt) && fr.ctx == env.ctx && Temp(s, 1) == v && s.options.Some? && OptionsLeq(ho, s.options.value)
    ensures var r := BlockHelperMissing(rt, env, v, ho, s.w); r.Stuck? || Eval(rt, fr, MissingCall(), s) == Lift(s, r)
  {
    hide Readable, Named, Monotone, OptionsLeq;
    OwnNames();
    CallLeq(rt, s.w, rt.helper("blockHelperMissing"), env.ctx, [v], ho, s.options.value);
    NamedHelper(rt, fr, "blockHelperMissing", s);
    EvalOne(rt, fr, JTemp(1), s);
  }

  lemma EmitTempCorrect(cc: Setting, rt: Runtime, fr: Frame, v: Value, s: Store, out: string)
    requires cc.isSimple ==> out == ""
    requires Temp(s, 1) == v
    ensures SimText(out, Piece(s.w, v), ExecLines(rt, fr, EmitTemp(cc), s, out))
  {
    hide Named;
    assert Eval(rt, fr, JTemp(1), s) == Done(s, v);
    assert EmitTemp(cc)[1..] == if cc.isSimple then [Exec(ElseReturnEmpty)] else [];
    assert out + "" == out;
    assert ExecLines(rt, fr, [], s, out) == Done(s, Str(out));
  }

  // ----- statements

  lemma StmtCorrect(cc: Setting, rt: Runtime, env: Env, fr: Frame, st: Stmt, g: nat, s: Store, out: string)
    requires Monotone(rt) && DefaultOptions(cc.opts) && SameView(cc, env, fr)
    requires cc.isSimple ==> out == ""
    requires WfStmt(st, cc.opts) && !Silent(st) && (UsesStmt(st, cc.opts) ==> cc.useDepths)
    requires SamePrograms(cc, env, fr, st, g)
    ensures SimText(out, InterpStmt(rt, cc.opts, env, st, s.w), ExecLines(rt, fr, StmtLines(cc, st, g), s, out))
  {
    hide Eval, InterpSexpr, TSexpr, ExecLines, Named;
    match st
    case Mustache(c, escaped) =>
      var e, r := TSexpr(cc, c, false, JNull, JNull, 0), InterpSexpr(rt, cc.opts, env, c, false, None, None, s.w);
      SexprValue(cc, rt, env, fr, c, JNull, JNull, None, None, s);
      if escaped && !cc.opts.noEscape { EmitEscaped(cc, rt, fr, e, r, s, out); } else { EmitUnescaped(cc, rt, fr, e, r, s, out); }
    case Block(c, p, i) => BlockCorrect(cc, rt, env, fr, c, p, i, g, s, out);
  }

  lemma BlockCorrect(cc: Setting, rt: Runtime, env: Env, fr: Frame, c: Sexpr, p: Option<Program>, i: Option<Program>, g: nat, s: Store, out: string)
    requires Monotone(rt) && DefaultOptions(cc.opts) && SameView(cc, env, fr)
    requires cc.isSimple ==> out == ""
    requires WfStmt(Block(c, p, i), cc.opts) && (UsesSexpr(c, false, cc.opts) ==> cc.useDepths)
    requires SamePrograms(cc, env, fr, Block(c, p, i), g)
    ensures SimText(out, Pieces(InterpBlock(rt, cc.opts, env, c, p, i, s.w)), ExecLines(rt, fr, StmtLines(cc, Block(c, p, i), g), s, out))
  {
    hide Eval, InterpSexpr, TSexpr, ExecLines, Monotone, WfSexpr, UsesSexpr, FnIs, EmitTemp, Unescaped, SameView, SimText, SimValue, Named;
    ViewIs(cc, env, fr);
    BlockPrograms(cc, env, fr, c, p, i, g);
    var fn, inverse := ProgJ(cc, Guid(p, g)), ProgJ(cc, Guid(i, g + Slots(p)));
    var f, inv := ProgDen(env, p), ProgDen(env, i);
    var e := TSexpr(cc, c, false, fn, inverse, 0);
    var r := InterpSexpr(rt, cc.opts, env, c, false, f, inv, s.w);
    SexprValue(cc, rt, env, fr, c, fn, inverse, f, inv, s);
    match Classify(c, false, cc.opts)
    case Helper => EmitUnescaped(cc, rt, fr, e, r, s, out);
    case Simple =>
      var name := CalleePath(c.callee).original;
      var jo := JOptions(name, JObject([]), FnOf(fn, inverse), FnOf(inverse, fn));
      BlockValueCorrect(rt, env, fr, e, r, name, fn, inverse, f, inv, s);
      EmitUnescaped(cc, rt, fr, JCall(JHelperNamed("blockHelperMissing"), [e], Inline(jo)), InterpBlock(rt, cc.opts, env, c, p, i, s.w), s, out);
    case Ambiguous => AmbiguousBlockCorrect(cc, rt, env, fr, c, fn, inverse, f, inv, s, out);
  }

  // ----- bodies

  predicate NoReturn(l: Line) {
    l.Append? || l.s.SetTemp? || l.s.IfNoHelper? || l.s.IfNotNullAppend?
  }

  lemma {:induction false} ExecConcat(rt: Runtime, fr: Frame, a: seq<Line>, b: seq<Line>, s: Store, out: string)
    requires forall k :: 0 <= k < |a| ==> NoReturn(a[k])
    ensures var x := ExecLines(rt, fr, a, s, out);
            (x.Done? ==> x.v.Str?) &&
            ExecLines(rt, fr, a + b, s, out) == if x.Done? then ExecLines(rt, fr, b, x.s, x.v.s) else x
    decreases |a|
  {
    hide Eval, Named;
    if a == [] {
      assert a + b == b;
    } else {
      assert (a + b)[0] == a[0] && (a + b)[1..] == a[1..] + b;
      match a[0]
      case Append(e) =>
        var x := Eval(rt, fr, e, s);
        if x.Done? && x.v.Str? { ExecConcat(rt, fr, a[1..], b, x.s, out + x.v.s); }
      case Exec(SetTemp(n, e)) =>
        var x := Eval(rt, fr, e, s);
        if x.Done? { ExecConcat(rt, fr, a[1..], b, x.s.(temps := x.s.temps[n := x.v]), out); }
      case Exec(IfNoHelper(name, n, e)) =>
        if Named(name).None? {
        } else if Truthy(rt.helper(Named(name).value)) {
          ExecConcat(rt, fr, a[1..], b, s, out);
        } else {
          var x := Eval(rt, fr, e, s);
          if x.Done? { ExecConcat(rt, fr, a[1..], b, x.s.(temps := x.s.temps[n := x.v]), out); }
        }
      case Exec(IfNotNullAppend(e)) =>
        var x := Eval(rt, fr, e, s);
        if x.Done? {
          if Nullish(x.v) {
            ExecConcat(rt, fr, a[1..], b, x.s, out);
          } else {
            var y := Eval(rt, fr, e, x.s);
            if y.Done? && y.v.Str? { ExecConcat(rt, fr, a[1..], b, y.s, out + y.v.s); }
          }
        }
    }
  }

  /** As `SamePrograms`, for every statement of a body. */
  ghost predicate SameBodyPrograms(cc: Setting, env: Env, fr: Frame, body: seq<Stmt>, g: nat)
    decreases |body|
  {
    body != [] ==> SamePrograms(cc, env, fr, body[0], g) && SameBodyPrograms(cc, env, fr, body[1..], g + StmtSlots(body[0]))
  }

  lemma EmittedNoReturn(cc: Setting, st: Stmt, g: nat, pending: string)
    requires !cc.isSimple
    ensures forall k :: 0 <= k < |Emitted(cc, st, g, pending)| ==> NoReturn(Emitted(cc, st, g, pending)[k])
  {
  }

  lemma FlushCorrect(cc: Setting, rt: Runtime, fr: Frame, pending: string, s: Store, out: string)
    requires cc.isSimple ==> out == ""
    ensures ExecLines(rt, fr, Flush(cc, pending), s, out) == Done(s, Str(out + pending))
  {
    hide Named;
    if pending == "" {
      assert out + pending == out;
    } else {
      EmitOne(cc, rt, fr, JStr(pending), Ok(s.w, pending), s, out);
      assert Flush(cc, pending)[1..] == [];
    }
  }

  lemma EmittedCorrect(cc: Setting, rt: Runtime, env: Env, fr: Frame, st: Stmt, g: nat, pending: string, s: Store, out: string)
    requires Monotone(rt) && DefaultOptions(cc.opts) && SameView(cc, env, fr) && !cc.isSimple
    requires WfStmt(st, cc.opts) && !Silent(st) && (UsesStmt(st, cc.opts) ==> cc.useDepths)
    requires SamePrograms(cc, env, fr, st, g)
    ensures SimText(out + pending, InterpStmt(rt, cc.opts, env, st, s.w), ExecLines(rt, fr, Emitted(cc, st, g, pending), s, out))
  {
    hide ExecLines, InterpStmt, StmtLines, Named;
    FlushCorrect(cc, rt, fr, pending, s, out);
    ExecConcat(rt, fr, Flush(cc, pending), StmtLines(cc, st, g), s, out);
    StmtCorrect(cc, rt, env, fr, st, g, s, out + pending);
  }

  lemma {:induction false} BodyCorrect(cc: Setting, rt: Runtime, env: Env, fr: Frame, body: seq<Stmt>, g: nat, pending: string, s: Store, out: string)
    requires Monotone(rt) && DefaultOptions(cc.opts) && SameView(cc, env, fr) && !cc.isSimple
    requires forall k :: 0 <= k < |body| ==> WfStmt(body[k], cc.opts)
    requires UsesBody(body, cc.opts) ==> cc.useDepths
    requires SameBodyPrograms(cc, env, fr, body, g)
    ensures SimText(out + pending, InterpBody(rt, cc.opts, env, body, s.w), ExecLines(rt, fr, BodyLines(cc, body, g, pending), s, out))
    decreases |body|
  {
    hide ExecLines, StmtLines, WfStmt, Monotone, InterpStmt, SamePrograms, SameView, UsesStmt, Emitted, Named;
    if body == [] {
      FlushCorrect(cc, rt, fr, pending, s, out);
      assert out + pending + "" == out + pending;
    } else {
      var st, rest, g1 := body[0], body[1..], g + StmtSlots(body[0]);
      if Silent(st) {
        var text := if st.Content? then st.text else "";
        var p1 := Pending(st, pending);
        BodyCorrect(cc, rt, env, fr, rest, g1, p1, s, out);
        SilentIs(cc, rt, env, st, g, pending, s.w);
        assert out + p1 == out + pending + text;
        assert Emitted(cc, st, g, pending) + BodyLines(cc, rest, g1, p1) == BodyLines(cc, rest, g1, p1);
        PrependText(out + pending, text, InterpBody(rt, cc.opts, env, rest, s.w), ExecLines(rt, fr, BodyLines(cc, rest, g1, p1), s, out));
      } else {
        var em, tail := Emitted(cc, st, g, pending), BodyLines(cc, rest, g1, "");
        EmittedNoReturn(cc, st, g, pending);
        ExecConcat(rt, fr, em, tail, s, out);
        EmittedCorrect(cc, rt, env, fr, st, g, pending, s, out);
        var r := InterpStmt(rt, cc.opts, env, st, s.w);
        if r.Ok? {
          var x := ExecLines(rt, fr, em, s, out);
          BodyCorrect(cc, rt, env, fr, rest, g1, "", x.s, x.v.s);
          assert x.v.s + "" == out + pending + r.v;
          PrependText(out + pending, r.v, InterpBody(rt, cc.opts, env, rest, x.s.w), ExecLines(rt, fr, tail, x.s, x.v.s));
        }
      }
    }
  }

  lemma SilentIs(cc: Setting, rt: Runtime, env: Env, st: Stmt, g: nat, pending: string, w: World)
    requires Silent(st)
    ensures var text := if st.Content? then st.text else "";
            InterpStmt(rt, cc.opts, env, st, w) == Ok(w, text) && Emitted(cc, st, g, pending) == [] && Pending(st, pending) == pending + text
  {
  }

  /** Text printed by the first statement and by the rest. */
  lemma PrependText(out: string, t: string, r: Res<string>, x: Out<Value>)
    requires SimText(out + t, r, x)
    ensures SimText(out, match r case Ok(w, u) => Ok(w, t + u) case Threw(w, e) => Threw(w, e) case Stuck => Stuck, x)
  {
    if r.Ok? { assert out + t + r.v == out + (t + r.v); }
  }

  // ----- a program of one statement returns its text directly; so does any program with the same opcodes

  lemma {:induction false} NoOutputs(cc: Setting, rt: Runtime, o: Options, env: Env, body: seq<Stmt>, g: nat, w: World)
    requires BodyOutputs(body) == 0
    ensures BodyLines(cc, body, g, "") == []
    ensures InterpBody(rt, o, env, body, w) == Ok(w, "")
    decreases |body|
  {
    if body != [] { NoOutputs(cc, rt, o, env, body[1..], g + StmtSlots(body[0]), w); }
  }

  function PendingOutput(pending: string): nat { if pending == "" then 0 else 1 }

  lemma {:induction false} OneOutputCorrect(cc: Setting, rt: Runtime, env: Env, fr: Frame, body: seq<Stmt>, g: nat, pending: string, s: Store)
    requires Monotone(rt) && DefaultOptions(cc.opts) && SameView(cc, env, fr) && cc.isSimple
    requires BodyOutputs(body) + PendingOutput(pending) <= 1
    requires forall k :: 0 <= k < |body| ==> WfStmt(body[k], cc.opts)
    requires UsesBody(body, cc.opts) ==> cc.useDepths
    requires SameBodyPrograms(cc, env, fr, body, g)
    ensures SimText(pending, InterpBody(rt, cc.opts, env, body, s.w), ExecLines(rt, fr, BodyLines(cc, body, g, pending), s, ""))
    decreases |body|
  {
    hide ExecLines, StmtLines, Named;
    if body == [] {
      FlushCorrect(cc, rt, fr, pending, s, "");
      assert "" + pending == pending && pending + "" == pending;
    } else {
      var st, rest, g1 := body[0], body[1..], g + StmtSlots(body[0]);
      if Silent(st) {
        var text := if st.Content? then st.text else "";
        var p1 := Pending(st, pending);
        assert p1 == pending + text;
        OneOutputCorrect(cc, rt, env, fr, rest, g1, p1, s);
        assert Emitted(cc, st, g, pending) + BodyLines(cc, rest, g1, p1) == BodyLines(cc, rest, g1, p1);
        PrependText(pending, text, InterpBody(rt, cc.opts, env, rest, s.w), ExecLines(rt, fr, BodyLines(cc, rest, g1, p1), s, ""));
      } else {
        StmtCorrect(cc, rt, env, fr, st, g, s, "");
        assert Emitted(cc, st, g, "") + BodyLines(cc, rest, g1, "") == StmtLines(cc, st, g) by {
          NoOutputs(cc, rt, cc.opts, env, rest, g1, s.w);
          assert [] + StmtLines(cc, st, g) + [] == StmtLines(cc, st, g);
        }
        var r := InterpStmt(rt, cc.opts, env, st, s.w);
        if r.Ok? {
          NoOutputs(cc, rt, cc.opts, env, rest, g1, r.w);
          assert r.v + "" == r.v;
        }
      }
    }
  }

  /** Nothing, or statements of which the last returns. */
  predicate ReturningLines(ls: seq<Line>) {
    (forall k :: 0 <= k < |ls| ==> ls[k].Exec? && !ls[k].s.IfNotNullAppend?) &&
    (ls == [] || ls[|ls| - 1].s.ReturnValue? || ls[|ls| - 1].s.ElseReturnEmpty?)
  }

  lemma StmtLinesReturn(cc: Setting, st: Stmt, g: nat)
    requires cc.isSimple && !Silent(st)
    ensures ReturningLines(StmtLines(cc, st, g))
  {
    hide TSexpr;
  }

  lemma {:induction false} OneOutputShape(cc: Setting, body: seq<Stmt>, g: nat, pending: string)
    requires cc.isSimple
    requires BodyOutputs(body) + PendingOutput(pending) <= 1
    ensures ReturningLines(BodyLines(cc, body, g, pending))
    decreases |body|
  {
    hide ReturningLines, StmtLines, Emitted, Flush, Pending;
    if body == [] {
      FlushReturns(cc, pending);
    } else {
      var st, rest, g1 := body[0], body[1..], g + StmtSlots(body[0]);
      OutputsOf(st, pending);
      if Silent(st) {
        NothingEmitted(cc, st, g, pending);
        OneOutputShape(cc, rest, g1, Pending(st, pending));
        var ls := BodyLines(cc, rest, g1, Pending(st, pending));
        assert [] + ls == ls;
      } else {
        NoLines(cc, rest, g1);
        StmtLinesReturn(cc, st, g);
        JustLines(cc, st, g);
        var ls := StmtLines(cc, st, g);
        assert ls + [] == ls;
      }
    }
  }

  lemma FlushReturns(cc: Setting, pending: string)
    requires cc.isSimple
    ensures ReturningLines(Flush(cc, pending))
  {
  }

  lemma OutputsOf(st: Stmt, pending: string)
    ensures Silent(st) ==> PendingOutput(Pending(st, pending)) <= StmtOutputs(st) + PendingOutput(pending)
    ensures !Silent(st) ==> StmtOutputs(st) == 1 && Pending(st, pending) == ""
  {
  }

  lemma NothingEmitted(cc: Setting, st: Stmt, g: nat, pending: string)
    requires Silent(st)
    ensures Emitted(cc, st, g, pending) == []
  {
  }

  lemma JustLines(cc: Setting, st: Stmt, g: nat)
    requires !Silent(st)
    ensures Emitted(cc, st, g, "") == StmtLines(cc, st, g)
  {
    hide StmtLines;
    assert [] + StmtLines(cc, st, g) == StmtLines(cc, st, g);
  }

  lemma {:induction false} NoLines(cc: Setting, body: seq<Stmt>, g: nat)
    requires BodyOutputs(body) == 0
    ensures BodyLines(cc, body, g, "") == []
    decreases |body|
  {
    if body != [] { NoLines(cc, body[1..], g + StmtSlots(body[0])); }
  }

  lemma {:induction false} NonSimpleShape(cc: Setting, body: seq<Stmt>, g: nat, pending: string)
    requires !cc.isSimple
    ensures forall k :: 0 <= k < |BodyLines(cc, body, g, pending)| ==> NoReturn(BodyLines(cc, body, g, pending)[k])
    decreases |body|
  {
    hide StmtLines;
    if body != [] {
      EmittedNoReturn(cc, body[0], g, pending);
      NonSimpleShape(cc, body[1..], g + StmtSlots(body[0]), Pending(body[0], pending));
    }
  }
}

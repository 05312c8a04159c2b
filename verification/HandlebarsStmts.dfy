/** The lines each statement emits: running its opcodes emits exactly them, and executing them prints
    what the reference interpreter prints. */
module HandlebarsStmts {
  import opened Sequences
  import opened Wrappers
  import opened HandlebarsAst
  import opened HandlebarsRuntime
  import opened HandlebarsInterp
  import opened HandlebarsOpcodes
  import opened HandlebarsTarget
  import opened HandlebarsMachine
  import opened HandlebarsTranslate
  import opened HandlebarsExprs
  import opened HandlebarsEnvironments

  // ----- direct translation

  function ProgJ(cc: Setting, guid: Option<nat>): JExpr {
    match guid
    case None => JNull
    case Some(g) => if g < |cc.refs| then JProgram(cc.refs[g]) else JNull
  }

  function Unescaped(cc: Setting, e: JExpr): seq<Line> {
    [AppendToBuffer(cc, RewriteEntry(OrEmpty, Inl(e), 0))]
  }

  function StmtLines(cc: Setting, st: Stmt, g: nat): seq<Line> {
    match st
    case Content(_) => []
    case Comment => []
    case Mustache(c, escaped) =>
      var e := TSexpr(cc, c, false, JNull, JNull, 0);
      if escaped && !cc.opts.noEscape then [AppendToBuffer(cc, JEscape(e))] else Unescaped(cc, e)
    case Block(c, p, i) =>
      var path := CalleePath(c.callee);
      var fn, inverse := ProgJ(cc, Guid(p, g)), ProgJ(cc, Guid(i, g + Slots(p)));
      var e := TSexpr(cc, c, false, fn, inverse, 0);
      match Classify(c, false, cc.opts)
      case Helper => Unescaped(cc, e)
      case Simple =>
        Unescaped(cc, JCall(JHelperNamed("blockHelperMissing"), [e],
                            Inline(JOptions(path.original, JObject([]), FnOf(fn, inverse), FnOf(inverse, fn)))))
      case Ambiguous => [Exec(SetTemp(1, e)), Exec(IfNoHelper(path.parts[0], 1, MissingCall()))] + EmitTemp(cc)
  }

  function MissingCall(): JExpr { JCall(JHelperNamed("blockHelperMissing"), [JTemp(1)], Register) }

  function EmitTemp(cc: Setting): seq<Line> {
    if cc.isSimple then [Exec(IfNotNullReturn(JTemp(1))), Exec(ElseReturnEmpty)] else [Exec(IfNotNullAppend(JTemp(1)))]
  }

  function Flush(cc: Setting, pending: string): seq<Line> {
    if pending == "" then [] else [AppendToBuffer(cc, JStr(pending))]
  }

  predicate Silent(st: Stmt) { st.Content? || st.Comment? }

  /** The lines a statement emits, preceded by any pending text. */
  function Emitted(cc: Setting, st: Stmt, g: nat, pending: string): seq<Line> {
    if Silent(st) then [] else Flush(cc, pending) + StmtLines(cc, st, g)
  }

  /** The text pending after a statement. */
  function Pending(st: Stmt, pending: string): string {
    if st.Content? then pending + st.text else if st.Comment? then pending else ""
  }

  /** Everything a body emits when text is already pending, including the final flush. */
  function BodyLines(cc: Setting, body: seq<Stmt>, g: nat, pending: string): seq<Line>
    decreases |body|
  {
    if body == [] then Flush(cc, pending)
    else Emitted(cc, body[0], g, pending) + BodyLines(cc, body[1..], g + StmtSlots(body[0]), Pending(body[0], pending))
  }

  // ----- running the opcodes

  /** Between statements nothing is on the stack and no hash is open. */
  predicate Boundary(st: State) {
    st.compileStack == [] && st.inlineStack == [] && st.stackSlot == 0 && st.hash.None? && st.hashes == []
  }

  predicate RunEmits(cc: Setting, ops: seq<Op>, st: State, lines: seq<Line>, pending: string) {
    var r := Run(cc, ops, st);
    r.Success? && Boundary(r.value) && r.value.lines == st.lines + lines && r.value.pending == pending
  }

  /** What an output opcode does with one expression on the stack. */
  lemma RunOutputOp(cc: Setting, op: Op, e: JExpr, st: State)
    requires op == AppendValue || op == AppendEscaped
    requires Boundary(st.(inlineStack := [])) && st.inlineStack == [Inl(e)]
    ensures var r := Run(cc, [op], st);
            && r.Success? && Boundary(r.value) && r.value.pending == ""
            && r.value.lines == st.lines + Flush(cc, st.pending) + (if op == AppendEscaped then [AppendToBuffer(cc, JEscape(e))] else Unescaped(cc, e))
  {
    hide Run;
    RunOne(cc, op, st);
    var f := RewriteEntry(OrEmpty, Inl(e), 0);
    assert Front([Inl(e)]) + [Inl(f)] == [Inl(f)];
    assert Front([Inl(f)]) == [];
  }

  lemma RunOutput(cc: Setting, ops: seq<Op>, op: Op, e: JExpr, st: State)
    requires Boundary(st)
    requires op == AppendValue || op == AppendEscaped
    requires RunPushes(cc, ops, st, [Inl(e)])
    ensures RunEmits(cc, ops + [op], st,
                     Flush(cc, st.pending) + (if op == AppendEscaped then [AppendToBuffer(cc, JEscape(e))] else Unescaped(cc, e)), "")
  {
    hide Run, Step, Flush, Unescaped;
    var st1 := Run(cc, ops, st).value;
    RunConcat(cc, ops, [op], st);
    assert st1.inlineStack == [Inl(e)];
    RunOutputOp(cc, op, e, st1);
    var lines := if op == AppendEscaped then [AppendToBuffer(cc, JEscape(e))] else Unescaped(cc, e);
    assert st.lines + Flush(cc, st.pending) + lines == st.lines + (Flush(cc, st.pending) + lines);
  }

  /** The three opcodes before `blockValue` and `ambiguousBlockValue`. */
  function BlockArgs(gp: Option<nat>, gi: Option<nat>): seq<Op> { [PushProgram(gp), PushProgram(gi)] + [EmptyHash] }

  lemma RunBlockArgs(cc: Setting, gp: Option<nat>, gi: Option<nat>, st: State)
    requires ProgramsAre(cc, gp, gi, ProgJ(cc, gp), ProgJ(cc, gi))
    ensures RunPushes(cc, BlockArgs(gp, gi), st, [Lit(ProgJ(cc, gp)), Lit(ProgJ(cc, gi))] + HashEntries(cc, NoHash, 0))
    ensures Run(cc, BlockArgs(gp, gi), st).value.lastHelper == st.lastHelper
  {
    RunTwoPrograms(cc, gp, gi, ProgJ(cc, gp), ProgJ(cc, gi), st);
    var st1 := Run(cc, [PushProgram(gp), PushProgram(gi)], st).value;
    RunOne(cc, EmptyHash, st1);
    EmptyHashEntries(cc, st1);
    RunPushesConcat(cc, [PushProgram(gp), PushProgram(gi)], [EmptyHash], st, [Lit(ProgJ(cc, gp)), Lit(ProgJ(cc, gi))], HashEntries(cc, NoHash, 0));
  }

  lemma SetupBlockParams(cc: Setting, name: string, pre: seq<Entry>, fn: JExpr, inverse: JExpr, st: State)
    requires st.inlineStack == pre + ([Lit(fn), Lit(inverse)] + HashEntries(cc, NoHash, 0))
    ensures SetupParams(cc, st, name, 0) ==
            Success((JOptions(name, JObject([]), FnOf(fn, inverse), FnOf(inverse, fn)), [], st.(inlineStack := pre)))
  {
    hide SetupParams, HashEntries;
    SetupNoParams(cc, name, pre, fn, inverse, st);
  }

  lemma RunBlockValue(cc: Setting, ops: seq<Op>, name: string, gp: Option<nat>, gi: Option<nat>, e: JExpr, st: State)
    requires ProgramsAre(cc, gp, gi, ProgJ(cc, gp), ProgJ(cc, gi))
    requires RunPushes(cc, ops, st, [Inl(e)])
    ensures var fn, inverse := ProgJ(cc, gp), ProgJ(cc, gi);
            var jo := JOptions(name, JObject([]), FnOf(fn, inverse), FnOf(inverse, fn));
            RunPushes(cc, ops + BlockArgs(gp, gi) + [BlockValue(name)], st,
                      [Inl(JCall(JHelperNamed("blockHelperMissing"), [e], Inline(jo)))])
  {
    hide Run, Step;
    var fn, inverse := ProgJ(cc, gp), ProgJ(cc, gi);
    var st1 := Run(cc, ops, st).value;
    RunBlockArgs(cc, gp, gi, st1);
    var st2 := Run(cc, BlockArgs(gp, gi), st1).value;
    RunPushesConcat(cc, ops, BlockArgs(gp, gi), st, [Inl(e)], [Lit(fn), Lit(inverse)] + HashEntries(cc, NoHash, 0));
    RunConcat(cc, ops + BlockArgs(gp, gi), [BlockValue(name)], st);
    StepBlockValue(cc, name, st.inlineStack, e, fn, inverse, st2);
  }

  lemma StepBlockValue(cc: Setting, name: string, pre: seq<Entry>, e: JExpr, fn: JExpr, inverse: JExpr, st: State)
    requires st.inlineStack == pre + [Inl(e)] + ([Lit(fn), Lit(inverse)] + HashEntries(cc, NoHash, 0))
    ensures var jo := JOptions(name, JObject([]), FnOf(fn, inverse), FnOf(inverse, fn));
            Run(cc, [BlockValue(name)], st) ==
            Success(st.(inlineStack := pre + [Inl(JCall(JHelperNamed("blockHelperMissing"), [e], Inline(jo)))]))
  {
    RunOne(cc, BlockValue(name), st);
    SetupBlockParams(cc, name, pre + [Inl(e)], fn, inverse, st);
    assert Front(pre + [Inl(e)]) == pre;
  }

  lemma RunAmbiguousBlock(cc: Setting, ops: seq<Op>, name: string, gp: Option<nat>, gi: Option<nat>, e: JExpr, st: State)
    requires Boundary(st)
    requires ProgramsAre(cc, gp, gi, ProgJ(cc, gp), ProgJ(cc, gi))
    requires RunPushes(cc, ops, st, [Inl(e)])
    requires Run(cc, ops, st).value.lastHelper == Some(name)
    ensures RunEmits(cc, ops + BlockArgs(gp, gi) + [AmbiguousBlockValue] + [AppendValue], st,
                     Flush(cc, st.pending) + [Exec(SetTemp(1, e)), Exec(IfNoHelper(name, 1, MissingCall()))] + EmitTemp(cc), "")
  {
    hide Run, Step;
    var fn, inverse := ProgJ(cc, gp), ProgJ(cc, gi);
    var st1 := Run(cc, ops, st).value;
    RunBlockArgs(cc, gp, gi, st1);
    var st2 := Run(cc, BlockArgs(gp, gi), st1).value;
    RunPushesConcat(cc, ops, BlockArgs(gp, gi), st, [Inl(e)], [Lit(fn), Lit(inverse)] + HashEntries(cc, NoHash, 0));
    assert st1.inlineStack == [Inl(e)];
    SetupBlockParams(cc, "", st1.inlineStack, fn, inverse, st2);
    var st3 := AmbiguousBlockStep(cc, name, e, st2, st2.(inlineStack := [Inl(e)]));
    RunAmbiguousBlockEnd(cc, ops + BlockArgs(gp, gi), st, st2, st3,
                         Flush(cc, st.pending) + [Exec(SetTemp(1, e)), Exec(IfNoHelper(name, 1, MissingCall()))]);
  }

  lemma RunAmbiguousBlockEnd(cc: Setting, ops: seq<Op>, st: State, st2: State, st3: State, ls: seq<Line>)
    requires Run(cc, ops, st) == Success(st2)
    requires StepAmbiguousBlockValue(cc, st2) == Success(st3)
    requires st3.compileStack == [Inl(JTemp(1))] && st3.inlineStack == [] && st3.stackSlot == 1 && st3.hash.None? && st3.hashes == []
    requires st3.pending == "" && st3.lines == st.lines + ls
    ensures RunEmits(cc, ops + [AmbiguousBlockValue] + [AppendValue], st, ls + EmitTemp(cc), "")
  {
    hide Run, Step, StepAmbiguousBlockValue, EmitTemp;
    RunConcat(cc, ops, [AmbiguousBlockValue], st);
    RunConcat(cc, ops + [AmbiguousBlockValue], [AppendValue], st);
    RunAmbiguousBlockOp(cc, st2);
    AppendTemp(cc, st3);
    assert st3.lines + EmitTemp(cc) == st.lines + (ls + EmitTemp(cc));
  }

  lemma RunAmbiguousBlockOp(cc: Setting, st: State)
    ensures Run(cc, [AmbiguousBlockValue], st) == StepAmbiguousBlockValue(cc, st)
  {
    hide StepAmbiguousBlockValue;
    RunOne(cc, AmbiguousBlockValue, st);
  }

  /** Appending a value that sits in the first temporary. */
  lemma AppendTemp(cc: Setting, st: State)
    requires st.compileStack == [Inl(JTemp(1))] && st.inlineStack == [] && st.stackSlot == 1 && st.pending == ""
    ensures Run(cc, [AppendValue], st) ==
            Success(st.(compileStack := [], stackSlot := 0, lines := st.lines + EmitTemp(cc)))
  {
    RunOne(cc, AppendValue, st);
    var st1 := st.(compileStack := [], stackSlot := 0);
    assert Front(st.compileStack) == [];
    assert st.lines + [] + EmitTemp(cc) == st.lines + EmitTemp(cc);
    assert PushSource(cc, st1, EmitTemp(cc)) == st1.(lines := st.lines + EmitTemp(cc));
  }

  lemma AmbiguousBlockStep(cc: Setting, name: string, e: JExpr, st2: State, st: State) returns (st3: State)
    requires st.inlineStack == [Inl(e)] && st.compileStack == [] && st.stackSlot == 0
    requires exists jo :: SetupParams(cc, st2, "", 0) == Success((jo, [], st))
    requires st.lastHelper == Some(name)
    ensures StepAmbiguousBlockValue(cc, st2) == Success(st3)
    ensures st3 == st.(inlineStack := [], compileStack := [Inl(JTemp(1))], stackSlot := 1, stackVars := st3.stackVars, pending := "", registers := st3.registers,
                       lines := st.lines + (Flush(cc, st.pending) + [Exec(SetTemp(1, e)), Exec(IfNoHelper(name, 1, MissingCall()))]))
  {
    var st0 := st.(inlineStack := []);
    var st1 := IncrStack(st0);
    assert FlushEntries(cc, st0, [Inl(e)]) ==
           FlushEntries(cc, PushSource(cc, st1, [Exec(SetTemp(1, e))]).(compileStack := [] + [Inl(JTemp(1))]), [Inl(e)][1..]);
    var flushed := FlushInline(cc, st);
    assert flushed.compileStack == [Inl(JTemp(1))];
    var line := Exec(IfNoHelper(name, 1, MissingCall()));
    assert flushed.lines + FlushPending(cc, flushed) + [line] ==
           st.lines + (Flush(cc, st.pending) + [Exec(SetTemp(1, e)), line]);
    st3 := PushSource(cc, flushed, [line]).(registers := flushed.registers + {OptionsRegister});
  }

  /** The opcodes of the head of a statement do not fail. */
  predicate StmtFits(st: Stmt, o: Options) {
    match st
    case Mustache(c, _) => HeadFits(c, o)
    case Block(c, _, _) => HeadFits(c, o)
    case _ => true
  }

  predicate BodyFits(body: seq<Stmt>, o: Options) { body == [] || (StmtFits(body[0], o) && BodyFits(body[1..], o)) }

  lemma RunStmt(cc: Setting, s: Stmt, g: nat, st: State)
    requires Boundary(st) && StmtFits(s, cc.opts)
    requires g + StmtSlots(s) <= |cc.refs|
    ensures RunEmits(cc, OpsStmt(s, g, cc.opts), st, Emitted(cc, s, g, st.pending), Pending(s, st.pending))
  {
    match s
    case Comment => assert st.lines + [] == st.lines;
    case Content(t) =>
      assert st.lines + [] == st.lines;
      if t == "" { assert st.pending + "" == st.pending; } else { RunOne(cc, AppendContent(t), st); }
    case Mustache(c, escaped) =>
      RunSexpr(cc, c, false, None, None, JNull, JNull, st);
      RunOutput(cc, OpsSexpr(c, false, None, None, cc.opts),
                if escaped && !cc.opts.noEscape then AppendEscaped else AppendValue, TSexpr(cc, c, false, JNull, JNull, 0), st);
    case Block(c, p, i) => RunBlock(cc, c, p, i, g, st);
  }

  lemma RunBlock(cc: Setting, c: Sexpr, p: Option<Program>, i: Option<Program>, g: nat, st: State)
    requires Boundary(st) && HeadFits(c, cc.opts)
    requires g + Slots(p) + Slots(i) <= |cc.refs|
    ensures RunEmits(cc, OpsStmt(Block(c, p, i), g, cc.opts), st, Flush(cc, st.pending) + StmtLines(cc, Block(c, p, i), g), "")
  {
    hide Run, Step;
    var gp, gi := Guid(p, g), Guid(i, g + Slots(p));
    var fn, inverse := ProgJ(cc, gp), ProgJ(cc, gi);
    RunSexpr(cc, c, false, gp, gi, fn, inverse, st);
    RunBlockTail(cc, c, p, i, g, st);
  }

  /** The opcodes of a block after those of its head. */
  lemma BlockOpsAre(c: Sexpr, p: Option<Program>, i: Option<Program>, g: nat, o: Options)
    ensures var gp, gi := Guid(p, g), Guid(i, g + Slots(p));
            var ops := OpsSexpr(c, false, gp, gi, o);
            OpsStmt(Block(c, p, i), g, o) ==
            match Classify(c, false, o)
            case Helper => ops + [AppendValue]
            case Simple => ops + BlockArgs(gp, gi) + [BlockValue(CalleePath(c.callee).original)] + [AppendValue]
            case Ambiguous => ops + BlockArgs(gp, gi) + [AmbiguousBlockValue] + [AppendValue]
  {
    hide OpsSexpr;
  }

  /** The lines of a block, from the expression of its head. */
  function BlockLines(cc: Setting, c: Sexpr, fn: JExpr, inverse: JExpr, e: JExpr): seq<Line> {
    var path := CalleePath(c.callee);
    match Classify(c, false, cc.opts)
    case Helper => Unescaped(cc, e)
    case Simple =>
      Unescaped(cc, JCall(JHelperNamed("blockHelperMissing"), [e],
                          Inline(JOptions(path.original, JObject([]), FnOf(fn, inverse), FnOf(inverse, fn)))))
    case Ambiguous => [Exec(SetTemp(1, e)), Exec(IfNoHelper(path.parts[0], 1, MissingCall()))] + EmitTemp(cc)
  }

  lemma BlockLinesAre(cc: Setting, c: Sexpr, p: Option<Program>, i: Option<Program>, g: nat)
    ensures var fn, inverse := ProgJ(cc, Guid(p, g)), ProgJ(cc, Guid(i, g + Slots(p)));
            StmtLines(cc, Block(c, p, i), g) == BlockLines(cc, c, fn, inverse, TSexpr(cc, c, false, fn, inverse, 0))
  {
    hide TSexpr, Unescaped, EmitTemp;
  }

  lemma RunBlockTail(cc: Setting, c: Sexpr, p: Option<Program>, i: Option<Program>, g: nat, st: State)
    requires Boundary(st)
    requires g + Slots(p) + Slots(i) <= |cc.refs|
    requires var gp, gi := Guid(p, g), Guid(i, g + Slots(p));
             var ops := OpsSexpr(c, false, gp, gi, cc.opts);
             RunPushes(cc, ops, st, [Inl(TSexpr(cc, c, false, ProgJ(cc, gp), ProgJ(cc, gi), 0))]) &&
             (Classify(c, false, cc.opts).Ambiguous? ==> Run(cc, ops, st).value.lastHelper == Some(CalleePath(c.callee).parts[0]))
    ensures RunEmits(cc, OpsStmt(Block(c, p, i), g, cc.opts), st, Flush(cc, st.pending) + StmtLines(cc, Block(c, p, i), g), "")
  {
    hide Run, Step, TSexpr, OpsSexpr, OpsStmt, StmtLines, BlockLines, BlockArgs, RunEmits, RunPushes;
    var gp, gi := Guid(p, g), Guid(i, g + Slots(p));
    BlockOpsAre(c, p, i, g, cc.opts);
    BlockLinesAre(cc, c, p, i, g);
    RunBlockCases(cc, OpsSexpr(c, false, gp, gi, cc.opts), c, gp, gi, TSexpr(cc, c, false, ProgJ(cc, gp), ProgJ(cc, gi), 0), st);
  }

  lemma RunBlockCases(cc: Setting, ops: seq<Op>, c: Sexpr, gp: Option<nat>, gi: Option<nat>, e: JExpr, st: State)
    requires Boundary(st) && RunPushes(cc, ops, st, [Inl(e)])
    requires ProgramsAre(cc, gp, gi, ProgJ(cc, gp), ProgJ(cc, gi))
    requires Classify(c, false, cc.opts).Ambiguous? ==> Run(cc, ops, st).value.lastHelper == Some(CalleePath(c.callee).parts[0])
    ensures var fn, inverse := ProgJ(cc, gp), ProgJ(cc, gi);
            var all := match Classify(c, false, cc.opts)
                       case Helper => ops + [AppendValue]
                       case Simple => ops + BlockArgs(gp, gi) + [BlockValue(CalleePath(c.callee).original)] + [AppendValue]
                       case Ambiguous => ops + BlockArgs(gp, gi) + [AmbiguousBlockValue] + [AppendValue];
            RunEmits(cc, all, st, Flush(cc, st.pending) + BlockLines(cc, c, fn, inverse, e), "")
  {
    hide Run, Step, BlockArgs, RunEmits, RunPushes, Boundary, Flush, EmitTemp, Unescaped;
    var fn, inverse := ProgJ(cc, gp), ProgJ(cc, gi);
    var path := CalleePath(c.callee);
    match Classify(c, false, cc.opts)
    case Helper => RunOutput(cc, ops, AppendValue, e, st);
    case Simple =>
      var jo := JOptions(path.original, JObject([]), FnOf(fn, inverse), FnOf(inverse, fn));
      RunBlockValue(cc, ops, path.original, gp, gi, e, st);
      RunOutput(cc, ops + BlockArgs(gp, gi) + [BlockValue(path.original)], AppendValue, JCall(JHelperNamed("blockHelperMissing"), [e], Inline(jo)), st);
    case Ambiguous =>
      RunAmbiguousBlock(cc, ops, path.parts[0], gp, gi, e, st);
      var flush, two := Flush(cc, st.pending), [Exec(SetTemp(1, e)), Exec(IfNoHelper(path.parts[0], 1, MissingCall()))];
      assert flush + two + EmitTemp(cc) == flush + (two + EmitTemp(cc));
  }

  /** Running `ops` and then flushing adds `lines`. */
  predicate RunFlushes(cc: Setting, ops: seq<Op>, st: State, lines: seq<Line>) {
    var r := Run(cc, ops, st);
    r.Success? && Boundary(r.value) && r.value.lines + Flush(cc, r.value.pending) == st.lines + lines
  }

  lemma RunFlushesConcat(cc: Setting, a: seq<Op>, b: seq<Op>, st: State, ls: seq<Line>, pending: string, ms: seq<Line>)
    requires RunEmits(cc, a, st, ls, pending)
    requires RunFlushes(cc, b, Run(cc, a, st).value, ms)
    ensures RunFlushes(cc, a + b, st, ls + ms)
  {
    hide Run, Step;
    RunConcat(cc, a, b, st);
    assert st.lines + ls + ms == st.lines + (ls + ms);
  }

  lemma RunNothing(cc: Setting, st: State)
    ensures Run(cc, [], st) == Success(st)
  {
  }

  lemma {:induction false} RunBody(cc: Setting, body: seq<Stmt>, g: nat, st: State)
    requires Boundary(st) && BodyFits(body, cc.opts)
    requires g + BodySlots(body) <= |cc.refs|
    ensures RunFlushes(cc, OpsBody(body, g, cc.opts), st, BodyLines(cc, body, g, st.pending))
    decreases |body|
  {
    hide Run, Step, OpsStmt, StmtLines;
    if body == [] {
      RunNothing(cc, st);
    } else {
      var s, rest := body[0], body[1..];
      RunStmt(cc, s, g, st);
      var ops := OpsStmt(s, g, cc.opts);
      var st1 := Run(cc, ops, st).value;
      RunBody(cc, rest, g + StmtSlots(s), st1);
      RunFlushesConcat(cc, ops, OpsBody(rest, g + StmtSlots(s), cc.opts), st, Emitted(cc, s, g, st.pending), st1.pending,
                       BodyLines(cc, rest, g + StmtSlots(s), st1.pending));
    }
  }

  /** A program's opcodes compile, leave nothing on the stack, and emit `BodyLines`, if its heads fit the options. */
  lemma CompileProgram(cc: Setting, body: seq<Stmt>)
    requires BodyFits(body, cc.opts)
    requires BodySlots(body) <= |cc.refs|
    ensures var r := CompileOps(cc, OpsBody(body, 0, cc.opts));
            r.Success? && r.value.lines == BodyLines(cc, body, 0, "")
  {
    hide Step, Run, OpsBody, BodyLines;
    RunBody(cc, body, 0, START);
    var lines := BodyLines(cc, body, 0, "");
    assert START.lines + lines == lines;
    FlushedCompiles(cc, OpsBody(body, 0, cc.opts), lines);
  }

  lemma FlushedCompiles(cc: Setting, ops: seq<Op>, lines: seq<Line>)
    requires RunFlushes(cc, ops, START, lines) && START.lines + lines == lines
    ensures CompileOps(cc, ops).Success? && CompileOps(cc, ops).value.lines == lines
  {
    hide Run;
    var st := Run(cc, ops, START).value;
    assert FlushPending(cc, st) == Flush(cc, st.pending);
    assert st.lines + FlushPending(cc, st) + [] == st.lines + FlushPending(cc, st);
  }
}

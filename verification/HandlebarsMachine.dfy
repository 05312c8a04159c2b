/** `JavaScriptCompiler` as a function of its state: the split symbolic stack and what each opcode does to it. */
module HandlebarsMachine {
  import opened Sequences
  import opened Wrappers
  import opened HandlebarsAst
  import opened HandlebarsHash
  import opened HandlebarsOpcodes
  import opened HandlebarsTarget

  datatype Result<+T> = Success(value: T) | Failure(error: Error)
  {
    predicate IsFailure() { Failure? }
    function PropagateFailure<U>(): Result<U>
      requires Failure?
    {
      Failure(error)
    }
    function Extract(): T
      requires Success?
    {
      value
    }
  }

  datatype Error =
    | InvalidStackPop
    | ReplaceStackOnNonInline
    | ContentLeftOnStack
    | NoSuchProgram
    | NoCurrentHash
    | NoTemporaryOnTop
    | ChildMissing
    | InvalidArrayLength
    | NotAFunction

  /** A stack entry: a literal, which may be repeated freely, or an expression to be used once. */
  datatype Entry = Lit(e: JExpr) | Inl(e: JExpr)

  /** What does not change while one program is compiled. */
  datatype Setting = Setting(isSimple: bool, useDepths: bool, refs: seq<ProgRef>, opts: Options)

  /** The two named variables that generated code may need besides the temporaries. */
  datatype Register = HelperRegister | OptionsRegister

  datatype State = State(
    compileStack: seq<Entry>,
    inlineStack: seq<Entry>,
    stackSlot: nat,
    stackVars: nat,
    lines: seq<Line>,
    pending: string,
    lastContext: nat,
    hash: Option<seq<JPair>>,
    hashes: seq<seq<JPair>>,
    lastHelper: Option<string>,
    registers: set<Register>)

  const START := State([], [], 0, 0, [], "", 0, None, [], None, {})

  // ----- stack primitives

  function Push(st: State, e: JExpr): State { st.(inlineStack := st.inlineStack + [Inl(e)]) }

  function PushLit(st: State, e: JExpr): State { st.(inlineStack := st.inlineStack + [Lit(e)]) }

  function PopStack(st: State): Result<(JExpr, State)> {
    if st.inlineStack != [] then
      Success((Last(st.inlineStack).e, st.(inlineStack := Front(st.inlineStack))))
    else if st.compileStack == [] then Failure(InvalidStackPop)
    else if Last(st.compileStack).Lit? then
      Success((Last(st.compileStack).e, st.(compileStack := Front(st.compileStack))))
    else if st.stackSlot == 0 then Failure(InvalidStackPop)
    else Success((Last(st.compileStack).e, st.(compileStack := Front(st.compileStack), stackSlot := st.stackSlot - 1)))
  }

  function PopMany(st: State, n: nat): Result<State>
    decreases n
  {
    if n == 0 then Success(st)
    else
      var (_, st1) :- PopStack(st);
      PopMany(st1, n - 1)
  }

  function IncrStack(st: State): State {
    st.(stackSlot := st.stackSlot + 1, stackVars := Max(st.stackVars, st.stackSlot + 1))
  }

  /** The three ways the top of the stack is rewritten in place. */
  datatype Rewrite = GuardedGet(name: string) | FalsyGet(name: string) | OrEmpty

  /** `first` computes the old top; `again` reads it once more. */
  function ApplyRewrite(r: Rewrite, first: JExpr, again: JExpr): JExpr {
    match r
    case GuardedGet(name) => JIfNotNull(first, JGet(again, name), again)
    case FalsyGet(name) => JAnd(first, JGet(again, name))
    case OrEmpty => JIfNotNull(first, again, JStr(""))
  }

  function RewriteEntry(r: Rewrite, top: Entry, slot: nat): JExpr {
    match top
    case Lit(e) => ApplyRewrite(r, e, e)
    case Inl(e) => ApplyRewrite(r, JSetTemp(slot + 1, e), JTemp(slot + 1))
  }

  function ReplaceStack(st: State, r: Rewrite): Result<State> {
    if st.inlineStack == [] then Failure(ReplaceStackOnNonInline)
    else
      var top := Last(st.inlineStack);
      var vars := if top.Lit? then st.stackVars else Max(st.stackVars, st.stackSlot + 1);
      Success(st.(inlineStack := Front(st.inlineStack) + [Inl(RewriteEntry(r, top, st.stackSlot))], stackVars := vars))
  }

  // ----- output lines

  function AppendToBuffer(cc: Setting, e: JExpr): Line {
    if cc.isSimple then Exec(ReturnValue(e)) else Append(e)
  }

  function FlushPending(cc: Setting, st: State): seq<Line> {
    if st.pending == "" then [] else [AppendToBuffer(cc, JStr(st.pending))]
  }

  function PushSource(cc: Setting, st: State, ls: seq<Line>): State {
    st.(lines := st.lines + FlushPending(cc, st) + ls, pending := "")
  }

  function FlushInline(cc: Setting, st: State): State {
    FlushEntries(cc, st.(inlineStack := []), st.inlineStack)
  }

  function FlushEntries(cc: Setting, st: State, es: seq<Entry>): State
    decreases |es|
  {
    if es == [] then st
    else
      match es[0]
      case Lit(_) => FlushEntries(cc, st.(compileStack := st.compileStack + [es[0]]), es[1..])
      case Inl(e) =>
        var st1 := IncrStack(st);
        var st2 := PushSource(cc, st1, [Exec(SetTemp(st1.stackSlot, e))]);
        FlushEntries(cc, st2.(compileStack := st2.compileStack + [Inl(JTemp(st1.stackSlot))]), es[1..])
  }

  // ----- pieces shared by several opcodes

  function LiteralExpr(l: Literal): JExpr {
    match l
    case StrLit(t) => JStr(t)
    case NumLit(t) => JNum(t)
    case BoolLit(b) => JBool(b)
    case UndefinedLit => JUndefined
    case NullLit => JWord(NullWord)
  }

  function KindText(k: ParamKind): string {
    match k
    case PathKind => "PathExpression"
    case StringKind => "StringLiteral"
    case NumberKind => "NumberLiteral"
    case BooleanKind => "BooleanLiteral"
    case UndefinedKind => "UndefinedLiteral"
    case NullKind => "NullLiteral"
    case SubKind => "SubExpression"
  }

  function ContextExpr(cc: Setting, depth: nat): JExpr { JContext(depth, cc.useDepths) }

  function ResolveParts(st: State, parts: seq<string>, falsy: bool): Result<State>
    decreases |parts|
  {
    if parts == [] then Success(st)
    else
      var st1 :- ReplaceStack(st, if falsy then FalsyGet(parts[0]) else GuardedGet(parts[0]));
      ResolveParts(st1, parts[1..], falsy)
  }

  function PushEmptyHash(cc: Setting, st: State): State {
    var st1 := if cc.opts.trackIds then Push(st, JObject([])) else st;
    var st2 := if cc.opts.stringParams then Push(Push(st1, JObject([])), JObject([])) else st1;
    PushLit(st2, JObject([]))
  }

  /** How many extra entries accompany a parameter or a hash. */
  function Extra(o: Options): nat {
    (if o.trackIds then 1 else 0) + (if o.stringParams then 2 else 0)
  }

  function PopParams(cc: Setting, st: State, n: nat): Result<(seq<JExpr>, State)>
    decreases n
  {
    if n == 0 then Success(([], st))
    else
      var (p, st1) :- PopStack(st);
      var st2 :- PopMany(st1, Extra(cc.opts));
      var (ps, st3) :- PopParams(cc, st2, n - 1);
      Success((ps + [p], st3))
  }

  /** What the compiler itself takes for false; text never is. */
  predicate Falsy(e: JExpr) { e.JNull? || e == JBool(false) || e == JNum("0") }

  function FnOf(e: JExpr, other: JExpr): JFn {
    if !Falsy(e) then FnExpr(e) else if !Falsy(other) then Noop else Absent
  }

  /** Pops hash, inverse, program and `n` parameters, and builds the options object. */
  function SetupParams(cc: Setting, st: State, name: string, n: nat): Result<(JOptions, seq<JExpr>, State)> {
    var (h, st1) :- PopStack(st);
    var st2 :- PopMany(st1, Extra(cc.opts));
    var (i, st3) :- PopStack(st2);
    var (p, st4) :- PopStack(st3);
    var (args, st5) :- PopParams(cc, st4, n);
    Success((JOptions(name, h, FnOf(p, i), FnOf(i, p)), args, st5))
  }

  /** What an entry is as the length of an array: text, other than of the compiler's own numbers, is none. */
  function ArrayLength(e: JExpr): Option<nat> {
    match e
    case JNum(t) => LengthText(t)
    case JBool(b) => Some(if b then 1 else 0)
    case JNull => Some(0)
    case _ => None
  }

  /** Each of the `n` entries on top, unless it is left aside as false, can be the length of an array. */
  predicate LengthsFit(st: State, n: nat)
    decreases n
  {
    n == 0 ||
    match PopStack(st)
    case Success((e, st1)) => (Falsy(e) || ArrayLength(e).Some?) && LengthsFit(st1, n - 1)
    case Failure(_) => true
  }

  /** The hash with one more assignment. */
  function PutKey(ps: seq<JPair>, key: string, v: JExpr): seq<JPair> { Put(ps, key, v, ArrayLength(v).GetOr(0)) }

  /** `objectLiteral` leaves out pairs whose text is `undefined`. */
  function DropUndefined(ps: seq<JPair>): seq<JPair> {
    if ps == [] then []
    else (if ps[0].value.JUndefined? then [] else [ps[0]]) + DropUndefined(ps[1..])
  }

  function HelperLookup(name: string, nonHelper: JExpr, isSimple: bool): JExpr {
    JOr(if isSimple then JOr(JHelperNamed(name), nonHelper) else nonHelper, JHelperNamed("helperMissing"))
  }

  function AmbiguousCall(name: string, nonHelper: JExpr, jo: JOptions, helperCall: bool): JExpr {
    var lookup := JSetHelperVar(JIfNotNull(JSetHelperVar(JOr(JHelperNamed(name), nonHelper)), JHelperVar, JHelperNamed("helperMissing")));
    var call := JIfFunction(JHelperVar, JCall(JHelperVar, [], if helperCall then Register else Inline(jo)), JHelperVar);
    if helperCall then JComma(lookup, JComma(JSetOptions(jo), call)) else JComma(lookup, call)
  }

  function ProgramExpr(cc: Setting, guid: Option<nat>): Result<JExpr> {
    match guid
    case None => Success(JNull)
    case Some(g) => if g < |cc.refs| then Success(JProgram(cc.refs[g])) else Failure(NoSuchProgram)
  }

  // ----- opcodes

  function Step(cc: Setting, op: Op, st: State): Result<State> {
    match op
    case GetContext(d) => Success(st.(lastContext := d))
    case PushContext => Success(PushLit(st, ContextExpr(cc, st.lastContext)))
    case LookupOnContext(parts, falsy, scoped) => ResolveParts(PushLit(st, ContextExpr(cc, st.lastContext)), parts, falsy)
    case LookupData(d, parts) => ResolveParts(PushLit(st, JData(d)), parts, true)
    case PushString(t) => Success(PushLit(st, JStr(t)))
    case PushLiteral(l) => Success(PushLit(st, LiteralExpr(l)))
    case PushProgram(guid) =>
      var e :- ProgramExpr(cc, guid);
      Success(PushLit(st, e))
    case EmptyHash => Success(PushEmptyHash(cc, st))
    case PushHash =>
      Success(st.(hash := Some([]), hashes := match st.hash case None => st.hashes case Some(h) => st.hashes + [h]))
    case PopHash => StepPopHash(cc, st)
    case AssignToHash(key) => StepAssign(cc, key, st)
    case ResolvePossibleLambda =>
      var (e, st1) :- PopStack(st);
      Success(Push(st1, JLambda(e)))
    case InvokeHelper(n, name, isSimple) =>
      var (nonHelper, st1) :- PopStack(st);
      var (jo, args, st2) :- SetupParams(cc, st1, name, n);
      Success(Push(st2, JCall(HelperLookup(name, nonHelper, isSimple), args, Inline(jo))))
    case InvokeKnownHelper(n, name) =>
      var (jo, args, st1) :- SetupParams(cc, st, name, n);
      Success(Push(st1, JCall(JHelperNamed(name), args, Inline(jo))))
    case InvokeAmbiguous(name, helperCall) =>
      var (nonHelper, st1) :- PopStack(st);
      var (jo, _, st2) :- SetupParams(cc, PushEmptyHash(cc, st1), name, 0);
      Success(Push(st2, AmbiguousCall(name, nonHelper, jo, helperCall)).(
                lastHelper := Some(name), registers := st2.registers + {HelperRegister} + (if helperCall then {OptionsRegister} else {})))
    case BlockValue(name) =>
      var (jo, _, st1) :- SetupParams(cc, st, name, 0);
      var (v, st2) :- PopStack(st1);
      Success(Push(st2, JCall(JHelperNamed("blockHelperMissing"), [v], Inline(jo))))
    case AmbiguousBlockValue => StepAmbiguousBlockValue(cc, st)
    case AppendContent(t) => Success(st.(pending := st.pending + t))
    case AppendValue => StepAppend(cc, st)
    case AppendEscaped =>
      var (e, st1) :- PopStack(st);
      Success(PushSource(cc, st1, [AppendToBuffer(cc, JEscape(e))]))
    case PushId(kind, t) =>
      Success(PushLit(st, match kind case PathKind => JStr(t) case SubKind => JWord(TrueWord) case _ => JWord(NullWord)))
    case PushStringParam(v, kind) =>
      var st1 := PushLit(PushLit(st, ContextExpr(cc, st.lastContext)), JStr(KindText(kind)));
      Success(if kind.SubKind? then st1 else PushLit(st1, LiteralExpr(v)))
  }

  function StepPopHash(cc: Setting, st: State): Result<State> {
    if st.hash.None? then Failure(NoCurrentHash)
    else if HasKey(st.hash.value, "hasOwnProperty") then Failure(NotAFunction)
    else
      var st1 := if st.hashes == [] then st.(hash := None) else st.(hash := Some(Last(st.hashes)), hashes := Front(st.hashes));
      var st2 := if cc.opts.trackIds then Push(st1, JObject([])) else st1;
      var st3 := if cc.opts.stringParams then Push(Push(st2, JObject([])), JObject([])) else st2;
      Success(Push(st3, JObject(DropUndefined(st.hash.value))))
  }

  function StepAssign(cc: Setting, key: string, st: State): Result<State> {
    var (v, st1) :- PopStack(st);
    var st2 :- PopMany(st1, Extra(cc.opts));
    if st2.hash.None? then Failure(NoCurrentHash)
    else if key == "length" && (ArrayLength(v).None? || !LengthsFit(st1, Extra(cc.opts))) then Failure(InvalidArrayLength)
    else Success(st2.(hash := Some(PutKey(st2.hash.value, key, v))))
  }

  function StepAmbiguousBlockValue(cc: Setting, st: State): Result<State> {
    var (_, _, st1) :- SetupParams(cc, st, "", 0);
    var st2 := FlushInline(cc, st1);
    if st2.compileStack == [] || Last(st2.compileStack).Lit? || !Last(st2.compileStack).e.JTemp? || st2.lastHelper.None?
    then Failure(NoTemporaryOnTop)
    else
      var top := Last(st2.compileStack).e;
      var call := JCall(JHelperNamed("blockHelperMissing"), [top], Register);
      Success(PushSource(cc, st2, [Exec(IfNoHelper(st2.lastHelper.value, top.n, call))]).(registers := st2.registers + {OptionsRegister}))
  }

  function StepAppend(cc: Setting, st: State): Result<State> {
    if st.inlineStack != [] then
      var st1 :- ReplaceStack(st, OrEmpty);
      var (e, st2) :- PopStack(st1);
      Success(PushSource(cc, st2, [AppendToBuffer(cc, e)]))
    else
      var (e, st1) :- PopStack(st);
      Success(PushSource(cc, st1,
        if cc.isSimple then [Exec(IfNotNullReturn(e)), Exec(ElseReturnEmpty)] else [Exec(IfNotNullAppend(e))]))
  }

  function Run(cc: Setting, ops: seq<Op>, st: State): Result<State>
    decreases |ops|
  {
    if ops == [] then Success(st)
    else
      var st1 :- Step(cc, ops[0], st);
      Run(cc, ops[1..], st1)
  }

  /** Compile one program's opcodes to lines, flushing trailing content and checking the stack is empty. */
  function CompileOps(cc: Setting, ops: seq<Op>): Result<State> {
    var st :- Run(cc, ops, START);
    var st1 := PushSource(cc, st, []);
    if st1.stackSlot != 0 || st1.inlineStack != [] || st1.compileStack != [] then Failure(ContentLeftOnStack)
    else Success(st1)
  }
}

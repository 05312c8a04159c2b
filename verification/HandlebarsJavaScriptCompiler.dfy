/** The `JavaScriptCompiler` object: two stacks, a slot counter and a list of lines that its methods update in place.
    Every method is tied to the state function it computes. */
module HandlebarsJavaScriptCompiler {
  import opened Sequences
  import opened Wrappers
  import opened HandlebarsHash
  import opened HandlebarsAst
  import opened HandlebarsOpcodes
  import opened HandlebarsTarget
  import opened HandlebarsEnvironments
  import opened HandlebarsTable
  import P = HandlebarsProgram
  import M = HandlebarsMachine
  import opened HandlebarsMachine

  class JavaScriptCompiler {
    const cc: Setting
    var compileStack: seq<Entry>
    var inlineStack: seq<Entry>
    var stackSlot: nat
    var stackVars: nat
    var source: seq<Line>
    var pendingContent: string
    var lastContext: nat
    var hash: Option<seq<JPair>>
    var hashes: seq<seq<JPair>>
    var lastHelper: Option<string>
    var registers: set<M.Register>

    function St(): State
      reads this
    {
      State(compileStack, inlineStack, stackSlot, stackVars, source, pendingContent, lastContext, hash, hashes, lastHelper, registers)
    }

    /** The outcome `r` of a step that should end like `expected`. */
    ghost predicate Ends<T>(r: Result<T>, expected: Result<(T, State)>)
      reads this
    {
      match expected
      case Success((v, st)) => r == Success(v) && St() == st
      case Failure(e) => r == Failure(e)
    }

    ghost predicate EndsIn(r: Result<()>, expected: Result<State>)
      reads this
    {
      match expected
      case Success(st) => r == Success(()) && St() == st
      case Failure(e) => r == Failure(e)
    }

    constructor (setting: Setting)
      ensures cc == setting && St() == START
    {
      cc := setting;
      compileStack, inlineStack, stackSlot, stackVars := [], [], 0, 0;
      source, pendingContent, lastContext := [], "", 0;
      hash, hashes, lastHelper, registers := None, [], None, {};
    }

    // ----- stacks

    method Push(e: JExpr)
      modifies this
      ensures St() == M.Push(old(St()), e)
    {
      inlineStack := inlineStack + [Inl(e)];
    }

    method PushStackLiteral(e: JExpr)
      modifies this
      ensures St() == PushLit(old(St()), e)
    {
      inlineStack := inlineStack + [Lit(e)];
    }

    method Pop() returns (r: Result<JExpr>)
      modifies this
      ensures Ends(r, M.PopStack(old(St())))
    {
      if inlineStack != [] {
        var item := Last(inlineStack);
        inlineStack := Front(inlineStack);
        r := Success(item.e);
      } else if compileStack == [] {
        r := Failure(InvalidStackPop);
      } else {
        var item := Last(compileStack);
        if item.Lit? {
          compileStack := Front(compileStack);
          r := Success(item.e);
        } else if stackSlot == 0 {
          r := Failure(InvalidStackPop);
        } else {
          compileStack := Front(compileStack);
          stackSlot := stackSlot - 1;
          r := Success(item.e);
        }
      }
    }

    method PopTimes(n: nat) returns (r: Result<()>)
      modifies this
      ensures EndsIn(r, PopMany(old(St()), n))
    {
      var i := n;
      while i > 0
        invariant 0 <= i <= n
        invariant PopMany(old(St()), n) == PopMany(St(), i)
      {
        var item := Pop();
        if item.Failure? {
          return Failure(item.error);
        }
        i := i - 1;
      }
      r := Success(());
    }

    method IncrStack() returns (n: nat)
      modifies this
      ensures St() == M.IncrStack(old(St())) && n == stackSlot
    {
      stackSlot := stackSlot + 1;
      if stackSlot > stackVars {
        stackVars := stackSlot;
      }
      n := stackSlot;
    }

    /** `replaceStack`: a literal is repeated, anything else is kept in a temporary that is free again afterwards. */
    method ReplaceStack(rw: Rewrite) returns (r: Result<()>)
      modifies this
      ensures EndsIn(r, M.ReplaceStack(old(St()), rw))
    {
      if inlineStack == [] {
        return Failure(ReplaceStackOnNonInline);
      }
      var top := Last(inlineStack);
      inlineStack := Front(inlineStack);
      match top {
        case Lit(e) =>
          Push(ApplyRewrite(rw, e, e));
        case Inl(e) =>
          var n := IncrStack();
          Push(JTemp(n));
          var name := Pop();
          stackSlot := stackSlot - 1;
          assert inlineStack == Front(old(inlineStack));
          Push(ApplyRewrite(rw, JSetTemp(n, e), JTemp(n)));
      }
      r := Success(());
    }

    // ----- output

    method PushSource(ls: seq<Line>)
      modifies this
      ensures St() == M.PushSource(cc, old(St()), ls)
    {
      if pendingContent != "" {
        source := source + [AppendToBuffer(cc, JStr(pendingContent))];
        pendingContent := "";
      }
      source := source + ls;
    }

    method FlushInline()
      modifies this
      ensures St() == M.FlushInline(cc, old(St()))
    {
      var entries := inlineStack;
      inlineStack := [];
      var i := 0;
      while i < |entries|
        invariant 0 <= i <= |entries|
        invariant M.FlushInline(cc, old(St())) == FlushEntries(cc, St(), entries[i..])
      {
        assert entries[i..][0] == entries[i] && entries[i..][1..] == entries[i + 1..];
        match entries[i] {
          case Lit(_) =>
            compileStack := compileStack + [entries[i]];
          case Inl(e) =>
            var n := IncrStack();
            PushSource([Exec(SetTemp(n, e))]);
            compileStack := compileStack + [Inl(JTemp(n))];
        }
        i := i + 1;
      }
      assert entries[i..] == [];
    }

    // ----- shared by several opcodes

    method ResolvePath(parts: seq<string>, falsy: bool) returns (r: Result<()>)
      modifies this
      ensures EndsIn(r, ResolveParts(old(St()), parts, falsy))
    {
      var i := 0;
      while i < |parts|
        invariant 0 <= i <= |parts|
        invariant ResolveParts(old(St()), parts, falsy) == ResolveParts(St(), parts[i..], falsy)
      {
        assert parts[i..][0] == parts[i] && parts[i..][1..] == parts[i + 1..];
        var done := ReplaceStack(if falsy then FalsyGet(parts[i]) else GuardedGet(parts[i]));
        if done.Failure? {
          return done;
        }
        i := i + 1;
      }
      assert parts[i..] == [];
      r := Success(());
    }

    method EmptyHash()
      modifies this
      ensures St() == PushEmptyHash(cc, old(St()))
    {
      if cc.opts.trackIds {
        Push(JObject([]));
      }
      if cc.opts.stringParams {
        Push(JObject([]));
        Push(JObject([]));
      }
      PushStackLiteral(JObject([]));
    }

    /** Parameters are popped last first. */
    method PopArguments(n: nat) returns (r: Result<seq<JExpr>>)
      modifies this
      ensures Ends(r, PopParams(cc, old(St()), n))
    {
      var params: seq<JExpr> := [];
      var i := n;
      assert forall ps: seq<JExpr> :: ps + [] == ps;
      while i > 0
        invariant 0 <= i <= n
        invariant PopParams(cc, old(St()), n) ==
                  (match PopParams(cc, St(), i) case Success((ps, st)) => Success((ps + params, st)) case Failure(e) => Failure(e))
      {
        var p := Pop();
        if p.Failure? { return Failure(p.error); }
        var extra := PopTimes(Extra(cc.opts));
        if extra.Failure? { return Failure(extra.error); }
        assert forall ps: seq<JExpr> :: ps + [p.value] + params == ps + ([p.value] + params);
        params := [p.value] + params;
        i := i - 1;
      }
      assert [] + params == params;
      r := Success(params);
    }

    method SetupParams(name: string, n: nat) returns (r: Result<(JOptions, seq<JExpr>)>)
      modifies this
      ensures match M.SetupParams(cc, old(St()), name, n)
              case Success((jo, args, st)) => r == Success((jo, args)) && St() == st
              case Failure(e) => r == Failure(e)
    {
      var h := Pop();
      if h.Failure? { return Failure(h.error); }
      var extra := PopTimes(Extra(cc.opts));
      if extra.Failure? { return Failure(extra.error); }
      var i := Pop();
      if i.Failure? { return Failure(i.error); }
      var p := Pop();
      if p.Failure? { return Failure(p.error); }
      var args := PopArguments(n);
      if args.Failure? { return Failure(args.error); }
      r := Success((JOptions(name, h.value, FnOf(p.value, i.value), FnOf(i.value, p.value)), args.value));
    }

    // ----- opcodes

    method Append() returns (r: Result<()>)
      modifies this
      ensures EndsIn(r, StepAppend(cc, old(St())))
    {
      if inlineStack != [] {
        var done := ReplaceStack(OrEmpty);
        if done.Failure? { return done; }
        var e := Pop();
        if e.Failure? { return Failure(e.error); }
        PushSource([AppendToBuffer(cc, e.value)]);
      } else {
        var e := Pop();
        if e.Failure? { return Failure(e.error); }
        if cc.isSimple {
          PushSource([Exec(IfNotNullReturn(e.value)), Exec(ElseReturnEmpty)]);
        } else {
          PushSource([Exec(IfNotNullAppend(e.value))]);
        }
      }
      r := Success(());
    }

    method UseRegister(register: M.Register)
      modifies this
      ensures St() == old(St()).(registers := old(St()).registers + {register})
    {
      registers := registers + {register};
    }

    method AmbiguousBlock() returns (r: Result<()>)
      modifies this
      ensures EndsIn(r, StepAmbiguousBlockValue(cc, old(St())))
    {
      var o := SetupParams("", 0);
      if o.Failure? { return Failure(o.error); }
      FlushInline();
      if compileStack == [] || Last(compileStack).Lit? || !Last(compileStack).e.JTemp? || lastHelper.None? {
        return Failure(NoTemporaryOnTop);
      }
      var current := Last(compileStack).e;
      UseRegister(OptionsRegister);
      PushSource([Exec(IfNoHelper(lastHelper.value, current.n, JCall(JHelperNamed("blockHelperMissing"), [current], Register)))]);
      r := Success(());
    }

    method OpenHash()
      modifies this
      ensures EndsIn(Success(()), Step(cc, PushHash, old(St())))
    {
      if hash.Some? {
        hashes := hashes + [hash.value];
      }
      hash := Some([]);
    }

    method CloseHash() returns (r: Result<()>)
      modifies this
      ensures EndsIn(r, StepPopHash(cc, old(St())))
    {
      if hash.None? {
        return Failure(NoCurrentHash);
      }
      if HasKey(hash.value, "hasOwnProperty") {
        return Failure(NotAFunction);
      }
      var values := hash.value;
      if hashes == [] {
        hash := None;
      } else {
        hash := Some(Last(hashes));
        hashes := Front(hashes);
      }
      if cc.opts.trackIds {
        Push(JObject([]));
      }
      if cc.opts.stringParams {
        Push(JObject([]));
        Push(JObject([]));
      }
      Push(JObject(DropUndefined(values)));
      r := Success(());
    }

    /** Pops the companions of a value, and tells whether all that are stored can be the length of an array. */
    method PopCompanions(n: nat) returns (r: Result<bool>)
      modifies this
      ensures Ends(r, match PopMany(old(St()), n) case Success(st) => Success((LengthsFit(old(St()), n), st)) case Failure(e) => Failure(e))
    {
      var fit := true;
      var i := n;
      while i > 0
        invariant 0 <= i <= n
        invariant PopMany(old(St()), n) == PopMany(St(), i)
        invariant PopMany(St(), i).Success? ==> (LengthsFit(old(St()), n) <==> fit && LengthsFit(St(), i))
      {
        var item := Pop();
        if item.Failure? {
          return Failure(item.error);
        }
        fit := fit && (Falsy(item.value) || ArrayLength(item.value).Some?);
        i := i - 1;
      }
      r := Success(fit);
    }

    method Assign(key: string) returns (r: Result<()>)
      modifies this
      ensures EndsIn(r, StepAssign(cc, key, old(St())))
    {
      var v := Pop();
      if v.Failure? { return Failure(v.error); }
      var fit := PopCompanions(Extra(cc.opts));
      if fit.Failure? { return Failure(fit.error); }
      if hash.None? { return Failure(NoCurrentHash); }
      if key == "length" && (ArrayLength(v.value).None? || !fit.value) { return Failure(InvalidArrayLength); }
      hash := Some(PutKey(hash.value, key, v.value));
      r := Success(());
    }

    method Helper(n: nat, name: string, isSimple: bool) returns (r: Result<()>)
      modifies this
      ensures EndsIn(r, Step(cc, InvokeHelper(n, name, isSimple), old(St())))
    {
      var nonHelper := Pop();
      if nonHelper.Failure? { return Failure(nonHelper.error); }
      var o := SetupParams(name, n);
      if o.Failure? { return Failure(o.error); }
      Push(JCall(HelperLookup(name, nonHelper.value, isSimple), o.value.1, Inline(o.value.0)));
      r := Success(());
    }

    method KnownHelperCall(n: nat, name: string) returns (r: Result<()>)
      modifies this
      ensures EndsIn(r, Step(cc, InvokeKnownHelper(n, name), old(St())))
    {
      var o := SetupParams(name, n);
      if o.Failure? { return Failure(o.error); }
      Push(JCall(JHelperNamed(name), o.value.1, Inline(o.value.0)));
      r := Success(());
    }

    method Ambiguous(name: string, helperCall: bool) returns (r: Result<()>)
      modifies this
      ensures EndsIn(r, Step(cc, InvokeAmbiguous(name, helperCall), old(St())))
    {
      var nonHelper := Pop();
      if nonHelper.Failure? { return Failure(nonHelper.error); }
      EmptyHash();
      var o := SetupParams(name, 0);
      if o.Failure? { return Failure(o.error); }
      Named(name, helperCall);
      Push(AmbiguousCall(name, nonHelper.value, o.value.0, helperCall));
      r := Success(());
    }

    /** Notes the helper that a following block may test for, and the registers in use. */
    method Named(name: string, helperCall: bool)
      modifies this
      ensures St() == old(St()).(lastHelper := Some(name),
                registers := old(St()).registers + {HelperRegister} + (if helperCall then {OptionsRegister} else {}))
    {
      lastHelper := Some(name);
      UseRegister(HelperRegister);
      if helperCall {
        UseRegister(OptionsRegister);
      }
    }

    method BlockCall(name: string) returns (r: Result<()>)
      modifies this
      ensures EndsIn(r, Step(cc, BlockValue(name), old(St())))
    {
      var o := SetupParams(name, 0);
      if o.Failure? { return Failure(o.error); }
      var v := Pop();
      if v.Failure? { return Failure(v.error); }
      Push(JCall(JHelperNamed("blockHelperMissing"), [v.value], Inline(o.value.0)));
      r := Success(());
    }

    method Lambda() returns (r: Result<()>)
      modifies this
      ensures EndsIn(r, Step(cc, ResolvePossibleLambda, old(St())))
    {
      var e := Pop();
      if e.Failure? { return Failure(e.error); }
      Push(JLambda(e.value));
      r := Success(());
    }

    method AppendEscapedValue() returns (r: Result<()>)
      modifies this
      ensures EndsIn(r, Step(cc, AppendEscaped, old(St())))
    {
      var e := Pop();
      if e.Failure? { return Failure(e.error); }
      PushSource([AppendToBuffer(cc, JEscape(e.value))]);
      r := Success(());
    }

    /** The dispatch on the opcode name. */
    method Execute(op: Op) returns (r: Result<()>)
      modifies this
      ensures EndsIn(r, Step(cc, op, old(St())))
    {
      match op {
        case PopHash => r := CloseHash();
        case AssignToHash(key) => r := Assign(key);
        case ResolvePossibleLambda => r := Lambda();
        case InvokeHelper(n, name, isSimple) => r := Helper(n, name, isSimple);
        case InvokeKnownHelper(n, name) => r := KnownHelperCall(n, name);
        case InvokeAmbiguous(name, helperCall) => r := Ambiguous(name, helperCall);
        case BlockValue(name) => r := BlockCall(name);
        case AmbiguousBlockValue => r := AmbiguousBlock();
        case AppendValue => r := Append();
        case AppendEscaped => r := AppendEscapedValue();
        case _ => r := ExecutePush(op);
      }
    }

    /** The opcodes that only push, or do not touch the stack. */
    method ExecutePush(op: Op) returns (r: Result<()>)
      requires op.GetContext? || op.PushContext? || op.LookupOnContext? || op.LookupData? || op.PushString? || op.PushLiteral? ||
               op.PushProgram? || op.EmptyHash? || op.PushHash? || op.AppendContent? || op.PushId? || op.PushStringParam?
      modifies this
      ensures EndsIn(r, Step(cc, op, old(St())))
    {
      r := Success(());
      match op {
        case GetContext(d) => lastContext := d;
        case PushContext => PushStackLiteral(ContextExpr(cc, lastContext));
        case LookupOnContext(parts, falsy, _) =>
          PushStackLiteral(ContextExpr(cc, lastContext));
          r := ResolvePath(parts, falsy);
        case LookupData(d, parts) =>
          PushStackLiteral(JData(d));
          r := ResolvePath(parts, true);
        case PushString(t) => PushStackLiteral(JStr(t));
        case PushLiteral(l) => PushStackLiteral(LiteralExpr(l));
        case PushProgram(guid) =>
          var e := ProgramExpr(cc, guid);
          if e.Failure? { return Failure(e.error); }
          PushStackLiteral(e.value);
        case EmptyHash => EmptyHash();
        case PushHash => OpenHash();
        case AppendContent(t) => pendingContent := pendingContent + t;
        case PushId(kind, t) =>
          PushStackLiteral(match kind case PathKind => JStr(t) case SubKind => JWord(TrueWord) case _ => JWord(NullWord));
        case PushStringParam(v, kind) =>
          PushStackLiteral(ContextExpr(cc, lastContext));
          PushStackLiteral(JStr(KindText(kind)));
          if !kind.SubKind? {
            PushStackLiteral(LiteralExpr(v));
          }
      }
    }

    /** The loop over the opcodes, the final flush and the check of the stacks. */
    method CompileOpcodes(ops: seq<Op>) returns (r: Result<seq<BodyStmt>>)
      requires St() == START
      modifies this
      ensures r == P.CodeOf(cc, ops)
    {
      hide Step;
      var i := 0;
      while i < |ops|
        invariant 0 <= i <= |ops|
        invariant Run(cc, ops, START) == Run(cc, ops[i..], St())
      {
        assert ops[i..][0] == ops[i] && ops[i..][1..] == ops[i + 1..];
        var done := Execute(ops[i]);
        if done.Failure? {
          return Failure(done.error);
        }
        i := i + 1;
      }
      assert ops[i..] == [];
      PushSource([]);
      if stackSlot != 0 || inlineStack != [] || compileStack != [] {
        return Failure(ContentLeftOnStack);
      }
      var body := P.MergeSource(source, cc.isSimple);
      r := Success(body);
    }
  }

  /** The object shared by the compilers of one template. */
  class Context {
    var length: nat
    var programs: map<nat, Compiled>
    var environments: map<nat, Environment>

    function Tab(): Table
      reads this
    {
      Table(length, programs, environments)
    }

    constructor ()
      ensures Tab() == EMPTY_TABLE
    {
      length, programs, environments := 0, map[], map[];
    }

    method MatchExistingProgram(child: Environment) returns (r: Result<Option<nat>>)
      ensures r == MatchFrom(Tab(), child, 0)
    {
      var i := 0;
      while i < length
        invariant 0 <= i <= length
        invariant MatchFrom(Tab(), child, 0) == MatchFrom(Tab(), child, i)
      {
        if i in environments {
          match Equals(environments[i], child) {
            case Same => return Success(Some(i));
            case MissingChild => return Failure(ChildMissing);
            case Different =>
          }
        }
        i := i + 1;
      }
      r := Success(None);
    }

    /** `compileChildren`, with a compiler of its own for each child that is not yet in the table. */
    method CompileChildren(es: seq<Environment>, o: Options) returns (r: Result<seq<nat>>)
      modifies this
      ensures match HandlebarsTable.CompileChildren(es, o, old(Tab()))
              case Success((ix, t)) => r == Success(ix) && Tab() == t
              case Failure(e) => r == Failure(e)
      decreases es, 0
    {
      var ix: seq<nat> := [];
      var i := 0;
      assert es[0..] == es && forall rest: seq<nat> :: [] + rest == rest;
      while i < |es|
        invariant 0 <= i <= |es|
        invariant HandlebarsTable.CompileChildren(es, o, old(Tab())) ==
                  (match HandlebarsTable.CompileChildren(es[i..], o, Tab())
                   case Success((rest, t)) => Success((ix + rest, t)) case Failure(e) => Failure(e))
      {
        var child := es[i];
        assert es[i..][0] == child && es[i..][1..] == es[i + 1..];
        var found := MatchExistingProgram(child);
        if found.Failure? { return Failure(found.error); }
        var index := 0;
        if found.value.Some? {
          index := found.value.value;
        } else {
          length := length + 1;
          index := length;
          var code := Compile(child, o);
          if code.Failure? { return Failure(code.error); }
          programs := programs[index := code.value];
          environments := environments[index := child];
          length := Max(length, index + 1);
        }
        assert forall rest: seq<nat> :: ix + ([index] + rest) == ix + [index] + rest;
        ix := ix + [index];
        i := i + 1;
      }
      assert es[i..] == [] && ix + [] == ix;
      r := Success(ix);
    }

    method Compile(e: Environment, o: Options) returns (r: Result<Compiled>)
      modifies this
      ensures match CompileEnv(e, o, old(Tab()))
              case Success((c, t)) => r == Success(c) && Tab() == t
              case Failure(x) => r == Failure(x)
      decreases e, 1
    {
      var ix := CompileChildren(e.children, o);
      if ix.Failure? { return Failure(ix.error); }
      var refs := Refs(ix.value, e.useDepths);
      var compiler := new JavaScriptCompiler(Setting(e.isSimple, e.useDepths, refs, o));
      var body := compiler.CompileOpcodes(e.ops);
      if body.Failure? { return Failure(body.error); }
      r := Success(Compiled(refs, body.value));
    }
  }
}

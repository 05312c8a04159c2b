/** Stack discipline for every opcode and every option: how many entries each opcode pops and pushes, the slot counter,
    and exactly which option sets let a template compile. */
module HandlebarsDiscipline {
  import opened Sequences
  import opened Wrappers
  import opened HandlebarsAst
  import opened HandlebarsHash
  import opened HandlebarsOpcodes
  import opened HandlebarsTarget
  import opened HandlebarsMachine
  import opened HandlebarsTranslate

  // ----- the logical stack and the slot counter

  function Logical(st: State): seq<Entry> { st.compileStack + st.inlineStack }

  function NonLiterals(s: seq<Entry>): nat
    decreases |s|
  {
    if s == [] then 0 else NonLiterals(Front(s)) + (if Last(s).Lit? then 0 else 1)
  }

  /** The non-literal entries of `compileStack` are the temporaries 1, 2, ... in order. */
  predicate Numbered(s: seq<Entry>)
    decreases |s|
  {
    s == [] || (Numbered(Front(s)) && (Last(s).Inl? ==> Last(s).e == JTemp(NonLiterals(s))))
  }

  predicate SlotInv(st: State) {
    st.stackSlot == NonLiterals(st.compileStack) && Numbered(st.compileStack)
  }

  // ----- documented effects

  function Pops(op: Op, o: Options): nat {
    var w := 1 + Extra(o);
    match op
    case AssignToHash(_) => w
    case ResolvePossibleLambda => 1
    case InvokeHelper(n, _, _) => 1 + w + 2 + n * w
    case InvokeKnownHelper(n, _) => w + 2 + n * w
    case InvokeAmbiguous(_, _) => 3
    case BlockValue(_) => w + 3
    case AmbiguousBlockValue => w + 2
    case AppendValue => 1
    case AppendEscaped => 1
    case _ => 0
  }

  function Pushes(op: Op, o: Options): nat {
    match op
    case GetContext(_) => 0
    case EmptyHash => 1 + Extra(o)
    case PushHash => 0
    case PopHash => 1 + Extra(o)
    case AssignToHash(_) => 0
    case AmbiguousBlockValue => 0
    case AppendContent(_) => 0
    case AppendValue => 0
    case AppendEscaped => 0
    case PushStringParam(_, k) => if k.SubKind? then 2 else 3
    case _ => 1
  }

  /** `st'` is `st` without its top `n` entries. */
  predicate Popped(st: State, n: nat, st': State) {
    SlotInv(st') && |Logical(st)| >= n && Logical(st') == Logical(st)[..|Logical(st)| - n] &&
    st'.hash == st.hash && st'.lastHelper == st.lastHelper
  }

  /** The top `n` entries are replaced by `m` others. */
  predicate Replaced(st: State, n: nat, m: nat, st': State) {
    SlotInv(st') && |Logical(st)| >= n && |Logical(st')| == |Logical(st)| - n + m &&
    Logical(st')[..|Logical(st)| - n] == Logical(st)[..|Logical(st)| - n]
  }

  lemma PopEffect(st: State)
    requires SlotInv(st)
    ensures PopStack(st).Success? ==> Popped(st, 1, PopStack(st).value.1)
    ensures PopStack(st) == Failure(InvalidStackPop) <==> Logical(st) == []
    ensures PopStack(st).Failure? <==> Logical(st) == []
    ensures PopStack(st).Success? ==> PopStack(st).value.0 == Last(Logical(st)).e
  {
    if st.inlineStack != [] {
      assert st.compileStack + Front(st.inlineStack) == Front(Logical(st));
    } else if st.compileStack != [] {
      assert Logical(st) == st.compileStack;
      assert Front(st.compileStack) + [] == Front(Logical(st));
    }
  }

  lemma {:induction false} PopManyEffect(st: State, n: nat)
    requires SlotInv(st)
    ensures PopMany(st, n).Success? ==> Popped(st, n, PopMany(st, n).value)
    ensures PopMany(st, n) == Failure(InvalidStackPop) <==> |Logical(st)| < n
    ensures PopMany(st, n).Failure? <==> |Logical(st)| < n
    decreases n
  {
    if n > 0 {
      PopEffect(st);
      if PopStack(st).Success? { PopManyEffect(PopStack(st).value.1, n - 1); }
    }
  }

  lemma PoppedTrans(a: State, n: nat, b: State, m: nat, c: State)
    requires Popped(a, n, b) && Popped(b, m, c)
    ensures Popped(a, n + m, c)
  {
  }

  /** What is left after popping is numbered in order. */
  lemma PoppedInv()
    ensures forall a, n, b {:trigger Popped(a, n, b)} ::
              Popped(a, n, b) ==> SlotInv(b) && |Logical(a)| == |Logical(b)| + n && b.hash == a.hash && b.lastHelper == a.lastHelper
  {
  }

  lemma {:induction false} PopParamsEffect(cc: Setting, st: State, n: nat)
    requires SlotInv(st)
    ensures PopParams(cc, st, n).Success? ==> Popped(st, n * (1 + Extra(cc.opts)), PopParams(cc, st, n).value.1)
    ensures PopParams(cc, st, n) == Failure(InvalidStackPop) <==> |Logical(st)| < n * (1 + Extra(cc.opts))
    ensures PopParams(cc, st, n).Failure? <==> |Logical(st)| < n * (1 + Extra(cc.opts))
    decreases n
  {
    hide Popped;
    PoppedInv();
    var w := 1 + Extra(cc.opts);
    if n > 0 {
      OneMoreTimes(n, w);
      PopEffect(st);
      if PopStack(st).Success? {
        var st1 := PopStack(st).value.1;
        PopManyEffect(st1, Extra(cc.opts));
        if PopMany(st1, Extra(cc.opts)).Success? {
          var st2 := PopMany(st1, Extra(cc.opts)).value;
          PopParamsEffect(cc, st2, n - 1);
          PoppedTrans(st, 1, st1, Extra(cc.opts), st2);
          if PopParams(cc, st2, n - 1).Success? {
            PoppedTrans(st, w, st2, (n - 1) * w, PopParams(cc, st2, n - 1).value.1);
          }
        }
      }
    } else {
      ZeroTimes(w);
      NonePopped(st);
    }
  }

  lemma NonePopped(st: State)
    requires SlotInv(st)
    ensures Popped(st, 0, st)
  {
  }

  lemma OneMoreTimes(n: nat, w: nat)
    requires n > 0
    ensures w + (n - 1) * w == n * w && (n - 1) * w >= 0
  {
  }

  function SetupPops(o: Options, n: nat): nat { 1 + Extra(o) + 2 + n * (1 + Extra(o)) }

  lemma SetupEffect(cc: Setting, st: State, name: string, n: nat)
    requires SlotInv(st)
    ensures SetupParams(cc, st, name, n).Success? ==> Popped(st, SetupPops(cc.opts, n), SetupParams(cc, st, name, n).value.2)
    ensures SetupParams(cc, st, name, n) == Failure(InvalidStackPop) <==> |Logical(st)| < SetupPops(cc.opts, n)
    ensures SetupParams(cc, st, name, n).Failure? <==> |Logical(st)| < SetupPops(cc.opts, n)
  {
    hide Popped, PopStack, PopMany, PopParams;
    var x := Extra(cc.opts);
    OneMoreTimes(n + 1, 1 + x);
    PoppedInv();
    PopEffect(st);
    if PopStack(st).Success? {
      var st1 := PopStack(st).value.1;
      PopManyEffect(st1, x);
      if PopMany(st1, x).Success? {
        var st2 := PopMany(st1, x).value;
        PopEffect(st2);
        PoppedTrans(st, 1, st1, x, st2);
        if PopStack(st2).Success? {
          var st3 := PopStack(st2).value.1;
          PopEffect(st3);
          PoppedTrans(st, 1 + x, st2, 1, st3);
          if PopStack(st3).Success? { SetupArgsEffect(cc, st, st3, name, n); }
        }
      }
    }
  }

  lemma SetupArgsEffect(cc: Setting, st: State, st3: State, name: string, n: nat)
    requires SlotInv(st) && Popped(st, 1 + Extra(cc.opts) + 1, st3) && PopStack(st3).Success?
    ensures var st4, w := PopStack(st3).value.1, n * (1 + Extra(cc.opts));
            w >= 0 &&
            (PopParams(cc, st4, n).Success? ==> Popped(st, SetupPops(cc.opts, n), PopParams(cc, st4, n).value.1)) &&
            (PopParams(cc, st4, n) == Failure(InvalidStackPop) <==> |Logical(st)| < SetupPops(cc.opts, n)) &&
            (PopParams(cc, st4, n).Failure? <==> |Logical(st)| < SetupPops(cc.opts, n))
  {
    hide Popped, PopStack, PopMany, PopParams;
    var x := Extra(cc.opts);
    OneMoreTimes(n + 1, 1 + x);
    PoppedInv();
    PopEffect(st3);
    var st4 := PopStack(st3).value.1;
    PoppedTrans(st, 1 + x + 1, st3, 1, st4);
    PopParamsEffect(cc, st4, n);
    if PopParams(cc, st4, n).Success? { PoppedTrans(st, 1 + x + 2, st4, n * (1 + x), PopParams(cc, st4, n).value.1); }
  }

  lemma PushEffect(st: State, n: nat, st1: State, es: seq<Entry>, st': State)
    requires Popped(st, n, st1)
    requires st'.compileStack == st1.compileStack && st'.stackSlot == st1.stackSlot
    requires st'.inlineStack == st1.inlineStack + es
    ensures Replaced(st, n, |es|, st')
  {
    assert Logical(st') == Logical(st1) + es;
  }

  lemma {:induction false} ResolveEffect(st: State, parts: seq<string>, falsy: bool)
    requires SlotInv(st) && st.inlineStack != []
    ensures var r := ResolveParts(st, parts, falsy);
            r.Success? && r.value.compileStack == st.compileStack && r.value.stackSlot == st.stackSlot &&
            |r.value.inlineStack| == |st.inlineStack| && Front(r.value.inlineStack) == Front(st.inlineStack)
    decreases |parts|
  {
    if parts != [] {
      var st1 := ReplaceStack(st, if falsy then FalsyGet(parts[0]) else GuardedGet(parts[0])).value;
      ResolveEffect(st1, parts[1..], falsy);
    }
  }

  lemma PushResolved(st: State, e: JExpr, parts: seq<string>, falsy: bool)
    requires SlotInv(st)
    ensures var r := ResolveParts(PushLit(st, e), parts, falsy); r.Success? && Replaced(st, 0, 1, r.value)
  {
    var st0 := PushLit(st, e);
    ResolveEffect(st0, parts, falsy);
    var st1 := ResolveParts(st0, parts, falsy).value;
    assert Front(st0.inlineStack) == st.inlineStack;
    assert st1.inlineStack == st.inlineStack + [Last(st1.inlineStack)];
    PushEffect(st, 0, st, [Last(st1.inlineStack)], st1);
  }

  /** Literals stay as they are, and every other entry becomes one that is not a literal. */
  predicate SameKinds(es: seq<Entry>, fs: seq<Entry>) {
    |fs| == |es| && forall k :: 0 <= k < |es| ==> if es[k].Lit? then fs[k] == es[k] else fs[k].Inl?
  }

  lemma {:induction false} FlushEffect(cc: Setting, st: State, es: seq<Entry>)
    requires SlotInv(st) && st.inlineStack == []
    ensures var st' := FlushEntries(cc, st, es);
            SlotInv(st') && st'.inlineStack == [] && st'.lastHelper == st.lastHelper &&
            SameKinds(st.compileStack + es, st'.compileStack)
    decreases |es|
  {
    if es == [] {
      assert st.compileStack + es == st.compileStack;
    } else {
      var f, st1 := FlushOne(cc, st, es[0]);
      FlushEffect(cc, st1, es[1..]);
      var st' := FlushEntries(cc, st, es);
      forall k | 0 <= k < |st.compileStack + es|
        ensures var e := (st.compileStack + es)[k]; if e.Lit? then st'.compileStack[k] == e else st'.compileStack[k].Inl?
      {
        assert (st1.compileStack + es[1..])[k] == if k == |st.compileStack| then f else (st.compileStack + es)[k];
      }
    }
  }

  lemma FlushOne(cc: Setting, st: State, e: Entry) returns (f: Entry, st1: State)
    requires SlotInv(st) && st.inlineStack == []
    ensures forall es :: es != [] && es[0] == e ==> FlushEntries(cc, st, es) == FlushEntries(cc, st1, es[1..])
    ensures SlotInv(st1) && st1.inlineStack == [] && st1.lastHelper == st.lastHelper && st1.compileStack == st.compileStack + [f]
    ensures if e.Lit? then f == e else f.Inl?
  {
    match e
    case Lit(_) =>
      assert Front(st.compileStack + [e]) == st.compileStack;
      f, st1 := e, st.(compileStack := st.compileStack + [e]);
    case Inl(x) =>
      var up := IncrStack(st);
      f := Inl(JTemp(up.stackSlot));
      var emitted := PushSource(cc, up, [Exec(SetTemp(up.stackSlot, x))]);
      assert Front(st.compileStack + [f]) == st.compileStack;
      st1 := emitted.(compileStack := emitted.compileStack + [f]);
  }

  /** What an opcode does to the stack when it does not fail.  `ambiguousBlockValue` also moves what is left
      into temporaries: literals stay, and every other entry becomes the temporary of its number. */
  ghost predicate Effect(op: Op, o: Options, st: State, st': State) {
    if op.AmbiguousBlockValue? then
      SlotInv(st') && st'.inlineStack == [] && |Logical(st)| >= Pops(op, o) &&
      SameKinds(Logical(st)[..|Logical(st)| - Pops(op, o)], Logical(st'))
    else Replaced(st, Pops(op, o), Pushes(op, o), st')
  }

  /** The entry can be the length of an array, or is left aside as false. */
  predicate LengthFits(e: JExpr) { Falsy(e) || ArrayLength(e).Some? }

  /** A value with its companions can be stored under `length`. */
  predicate StoresLength(es: seq<Entry>)
    requires es != []
  {
    ArrayLength(Last(es).e).Some? && forall k :: 0 <= k < |es| - 1 ==> LengthFits(es[k].e)
  }

  lemma {:induction false} FitsAre(st: State, n: nat)
    requires SlotInv(st) && n <= |Logical(st)|
    ensures LengthsFit(st, n) <==> forall k :: |Logical(st)| - n <= k < |Logical(st)| ==> LengthFits(Logical(st)[k].e)
    decreases n
  {
    hide PopStack, LengthFits, SlotInv;
    assert forall e :: LengthFits(e) <==> (Falsy(e) || ArrayLength(e).Some?) by { LengthFitsIs(); }
    if n > 0 {
      PopEffect(st);
      var l, st1 := Logical(st), PopStack(st).value.1;
      FitsAre(st1, n - 1);
      assert LengthsFit(st, n) <==> LengthFits(Last(l).e) && LengthsFit(st1, n - 1);
      assert Logical(st1) == l[..|l| - 1];
    }
  }

  lemma LengthFitsIs()
    ensures forall e :: LengthFits(e) <==> (Falsy(e) || ArrayLength(e).Some?)
  {
  }

  /** What an opcode needs in order not to fail: the entries it pops, and what some opcodes look at besides. */
  predicate Ready(cc: Setting, op: Op, st: State) {
    |Logical(st)| >= Pops(op, cc.opts) &&
    match op
    case PushProgram(g) => g.Some? ==> g.value < |cc.refs|
    case PopHash => st.hash.Some? && !HasKey(st.hash.value, "hasOwnProperty")
    case AssignToHash(key) =>
      st.hash.Some? && (key == "length" ==> StoresLength(Logical(st)[|Logical(st)| - Pops(op, cc.opts)..]))
    case AmbiguousBlockValue =>
      var left := Logical(st)[..|Logical(st)| - Pops(op, cc.opts)];
      left != [] && Last(left).Inl? && st.lastHelper.Some?
    case _ => true
  }

  /** What `Ready` says about a step. */
  ghost predicate ReadyDecides(cc: Setting, op: Op, st: State) {
    var r := Step(cc, op, st);
    (r.Success? <==> Ready(cc, op, st)) && (r == Failure(InvalidStackPop) <==> |Logical(st)| < Pops(op, cc.opts)) &&
    r != Failure(ReplaceStackOnNonInline)
  }

  /** An opcode fails exactly when it is not ready, with "Invalid stack pop" exactly when entries are missing; rewriting the
      top of an empty inline stack never happens. */
  lemma StepReady(cc: Setting, op: Op, st: State)
    requires SlotInv(st)
    ensures ReadyDecides(cc, op, st)
  {
    hide ReadyDecides, Step;
    match op
    case LookupOnContext(_, _, _) => LookupReady(cc, op, st);
    case LookupData(_, _) => LookupReady(cc, op, st);
    case AssignToHash(key) => AssignReady(cc, key, st);
    case ResolvePossibleLambda => PoppingReady(cc, op, st);
    case AppendEscaped => PoppingReady(cc, op, st);
    case AmbiguousBlockValue => AmbiguousBlockReady(cc, st);
    case AppendValue => AppendReady(cc, st);
    case InvokeHelper(n, name, isSimple) => HelperReady(cc, n, name, isSimple, st);
    case InvokeKnownHelper(n, name) => KnownReady(cc, n, name, st);
    case InvokeAmbiguous(name, hc) => AmbiguousReady(cc, name, hc, st);
    case BlockValue(name) => BlockValueReady(cc, name, st);
    case _ => SimpleReady(cc, op, st);
  }

  lemma LookupReady(cc: Setting, op: Op, st: State)
    requires SlotInv(st) && (op.LookupOnContext? || op.LookupData?)
    ensures ReadyDecides(cc, op, st)
  {
    hide ResolveParts, Replaced;
    match op
    case LookupOnContext(parts, falsy, _) => PushResolved(st, ContextExpr(cc, st.lastContext), parts, falsy);
    case LookupData(d, parts) => PushResolved(st, JData(d), parts, true);
  }

  lemma AssignReady(cc: Setting, key: string, st: State)
    requires SlotInv(st)
    ensures ReadyDecides(cc, AssignToHash(key), st)
  {
    hide PopStack, PopMany, Popped, SlotInv, StoresLength, ArrayLength, LengthsFit, PutKey;
    PoppedInv();
    PopEffect(st);
    if PopStack(st).Success? {
      var (v, st1) := PopStack(st).value;
      PopManyEffect(st1, Extra(cc.opts));
      if Extra(cc.opts) <= |Logical(st1)| {
        StoresIs(cc, st, st1);
        AssignDecided(cc, key, st, st1, PopMany(st1, Extra(cc.opts)).value);
      }
    }
  }

  /** The entries are there: what is left is whether there is a hash and a length that fits. */
  lemma AssignDecided(cc: Setting, key: string, st: State, st1: State, st2: State)
    requires PopStack(st).Success? && PopStack(st).value.1 == st1 && PopMany(st1, Extra(cc.opts)) == Success(st2) && st2.hash == st.hash
    ensures var r := Step(cc, AssignToHash(key), st);
            && (r.Success? <==> st.hash.Some? && (key == "length" ==> ArrayLength(PopStack(st).value.0).Some? && LengthsFit(st1, Extra(cc.opts))))
            && r != Failure(InvalidStackPop) && r != Failure(ReplaceStackOnNonInline)
  {
    hide PopStack, PopMany, ArrayLength, LengthsFit, PutKey;
  }

  lemma StoresIs(cc: Setting, st: State, st1: State)
    requires SlotInv(st) && Popped(st, 1, st1) && Extra(cc.opts) <= |Logical(st1)|
    ensures var l := Logical(st);
            StoresLength(l[|l| - 1 - Extra(cc.opts)..]) <==> ArrayLength(Last(l).e).Some? && LengthsFit(st1, Extra(cc.opts))
  {
    hide LengthFits, ArrayLength, PopStack;
    var l, l1, x := Logical(st), Logical(st1), Extra(cc.opts);
    var es := l[|l| - 1 - x..];
    FitsAre(st1, x);
    assert Last(es) == Last(l);
    if LengthsFit(st1, x) {
      forall k | 0 <= k < |es| - 1 ensures LengthFits(es[k].e) { assert es[k] == l1[|l1| - x + k]; }
    }
    if forall k :: 0 <= k < |es| - 1 ==> LengthFits(es[k].e) {
      forall k | |l1| - x <= k < |l1| ensures LengthFits(l1[k].e) { assert l1[k] == es[k - (|l1| - x)]; }
    }
  }

  lemma PoppingReady(cc: Setting, op: Op, st: State)
    requires SlotInv(st) && (op.ResolvePossibleLambda? || op.AppendEscaped?)
    ensures ReadyDecides(cc, op, st)
  {
    hide PopStack, Popped;
    PopEffect(st);
  }

  lemma SimpleReady(cc: Setting, op: Op, st: State)
    requires SlotInv(st) && Simple(op)
    ensures ReadyDecides(cc, op, st)
  {
  }

  lemma HelperPops(n: nat, name: string, isSimple: bool, o: Options)
    ensures Pops(InvokeHelper(n, name, isSimple), o) == 1 + SetupPops(o, n)
  {
    OneMoreTimes(n + 1, 1 + Extra(o));
  }

  lemma HelperReady(cc: Setting, n: nat, name: string, isSimple: bool, st: State)
    requires SlotInv(st)
    ensures ReadyDecides(cc, InvokeHelper(n, name, isSimple), st)
  {
    hide PopStack, SetupParams, Popped, SlotInv, HelperLookup, Pops, SetupPops;
    PoppedInv();
    HelperPops(n, name, isSimple, cc.opts);
    PopEffect(st);
    if PopStack(st).Success? { SetupEffect(cc, PopStack(st).value.1, name, n); }
  }

  lemma KnownReady(cc: Setting, n: nat, name: string, st: State)
    requires SlotInv(st)
    ensures ReadyDecides(cc, InvokeKnownHelper(n, name), st)
  {
    hide SetupParams, Popped;
    OneMoreTimes(n + 1, 1 + Extra(cc.opts));
    SetupEffect(cc, st, name, n);
  }

  lemma BlockValueReady(cc: Setting, name: string, st: State)
    requires SlotInv(st)
    ensures ReadyDecides(cc, BlockValue(name), st)
  {
    hide PopStack, SetupParams, Popped;
    PoppedInv();
    ZeroTimes(1 + Extra(cc.opts));
    SetupEffect(cc, st, name, 0);
    if SetupParams(cc, st, name, 0).Success? { PopEffect(SetupParams(cc, st, name, 0).value.2); }
  }

  lemma HashEntriesLength(cc: Setting)
    ensures |HashEntries(cc, NoHash, 0)| == 1 + Extra(cc.opts)
  {
  }

  lemma AmbiguousReady(cc: Setting, name: string, hc: bool, st: State)
    requires SlotInv(st)
    ensures ReadyDecides(cc, InvokeAmbiguous(name, hc), st)
  {
    hide PopStack, SetupParams, Popped, AmbiguousCall, ResolveParts, PushSource, HashEntries;
    PoppedInv();
    PopEffect(st);
    HashEntriesLength(cc);
    if PopStack(st).Success? {
      var st1 := PopStack(st).value.1;
      EmptyHashEntries(cc, st1);
      var st2 := PushEmptyHash(cc, st1);
      assert |Logical(st2)| == |Logical(st1)| + 1 + Extra(cc.opts);
      ZeroTimes(1 + Extra(cc.opts));
      SetupEffect(cc, st2, name, 0);
    }
  }

  lemma AppendReady(cc: Setting, st: State)
    requires SlotInv(st)
    ensures ReadyDecides(cc, AppendValue, st)
  {
    PopEffect(st);
  }

  lemma AmbiguousBlockReady(cc: Setting, st: State)
    requires SlotInv(st)
    ensures ReadyDecides(cc, AmbiguousBlockValue, st)
  {
    hide SetupParams, FlushEntries;
    ZeroTimes(1 + Extra(cc.opts));
    SetupEffect(cc, st, "", 0);
    if SetupParams(cc, st, "", 0).Success? {
      var st1 := SetupParams(cc, st, "", 0).value.2;
      FlushEffect(cc, st1.(inlineStack := []), st1.inlineStack);
      assert st1.compileStack + st1.inlineStack == Logical(st)[..|Logical(st)| - Pops(AmbiguousBlockValue, cc.opts)];
    }
  }

  /** Every opcode, with every option set, has its documented effect on the logical stack,
      and keeps the slot counter equal to the number of temporaries on `compileStack`. */
  lemma StepEffect(cc: Setting, op: Op, st: State)
    requires SlotInv(st)
    ensures Step(cc, op, st).Success? ==> Effect(op, cc.opts, st, Step(cc, op, st).value)
  {
    hide Step, Effect, SlotInv, Pops, Pushes;
    if Step(cc, op, st).Success? {
      match op
      case LookupOnContext(_, _, _) => PlainEffect(cc, op, st);
      case LookupData(_, _) => PlainEffect(cc, op, st);
      case AssignToHash(_) => PlainEffect(cc, op, st);
      case AmbiguousBlockValue => AmbiguousBlockEffect(cc, st);
      case AppendValue => PlainEffect(cc, op, st);
      case AppendEscaped => PlainEffect(cc, op, st);
      case ResolvePossibleLambda => PlainEffect(cc, op, st);
      case InvokeHelper(n, name, isSimple) => HelperEffect(cc, n, name, isSimple, st);
      case InvokeKnownHelper(n, name) => KnownEffect(cc, n, name, st);
      case InvokeAmbiguous(name, hc) => AmbiguousEffect(cc, name, hc, st);
      case BlockValue(name) => BlockValueEffect(cc, name, st);
      case _ => PushingEffect(cc, op, st);
    }
  }

  lemma PushingEffect(cc: Setting, op: Op, st: State)
    requires SlotInv(st) && Step(cc, op, st).Success? && Simple(op)
    ensures Effect(op, cc.opts, st, Step(cc, op, st).value)
  {
    hide Step, Replaced, SlotInv;
    SimpleEffect(cc, op, st);
  }

  lemma PlainEffect(cc: Setting, op: Op, st: State)
    requires SlotInv(st) && Step(cc, op, st).Success?
    requires op.LookupOnContext? || op.LookupData? || op.AssignToHash? || op.AppendValue? || op.AppendEscaped? || op.ResolvePossibleLambda?
    ensures Effect(op, cc.opts, st, Step(cc, op, st).value)
  {
    hide PopStack, PopMany, ResolveParts, Popped, Replaced;
    match op
    case LookupOnContext(parts, falsy, _) => PushResolved(st, ContextExpr(cc, st.lastContext), parts, falsy);
    case LookupData(d, parts) => PushResolved(st, JData(d), parts, true);
    case AssignToHash(key) => AssignEffect(cc, key, st);
    case AppendValue => AppendEffect(cc, st);
    case AppendEscaped => PopEffect(st); OnePopped(st, PopStack(st).value.1, Step(cc, op, st).value);
    case ResolvePossibleLambda =>
      PopEffect(st);
      var (e, st1) := PopStack(st).value;
      PushEffect(st, 1, st1, [Inl(JLambda(e))], Step(cc, op, st).value);
  }

  lemma KnownEffect(cc: Setting, n: nat, name: string, st: State)
    requires SlotInv(st) && Step(cc, InvokeKnownHelper(n, name), st).Success?
    ensures Effect(InvokeKnownHelper(n, name), cc.opts, st, Step(cc, InvokeKnownHelper(n, name), st).value)
  {
    hide SetupParams, Popped, Replaced;
    var op := InvokeKnownHelper(n, name);
    SetupEffect(cc, st, name, n);
    var (jo, args, st1) := SetupParams(cc, st, name, n).value;
    PushEffect(st, Pops(op, cc.opts), st1, [Inl(JCall(JHelperNamed(name), args, Inline(jo)))], Step(cc, op, st).value);
  }

  lemma BlockValueEffect(cc: Setting, name: string, st: State)
    requires SlotInv(st) && Step(cc, BlockValue(name), st).Success?
    ensures Effect(BlockValue(name), cc.opts, st, Step(cc, BlockValue(name), st).value)
  {
    hide PopStack, SetupParams, Popped, Replaced;
    var op := BlockValue(name);
    SetupEffect(cc, st, name, 0);
    var (jo, _, st1) := SetupParams(cc, st, name, 0).value;
    PoppedInv();
    PopEffect(st1);
    var (v, st2) := PopStack(st1).value;
    ZeroTimes(1 + Extra(cc.opts));
    PoppedTrans(st, 1 + Extra(cc.opts) + 2, st1, 1, st2);
    PushEffect(st, Pops(op, cc.opts), st2, [Inl(JCall(JHelperNamed("blockHelperMissing"), [v], Inline(jo)))], Step(cc, op, st).value);
  }

  lemma ZeroTimes(w: nat)
    ensures 0 * w == 0
  {
  }

  /** Opcodes that only push, or do not touch the stack. */
  predicate Simple(op: Op) {
    op.GetContext? || op.PushContext? || op.PushString? || op.PushLiteral? || op.PushProgram? || op.EmptyHash? ||
    op.PushHash? || op.PopHash? || op.AppendContent? || op.PushId? || op.PushStringParam?
  }

  lemma SimpleEffect(cc: Setting, op: Op, st: State)
    requires SlotInv(st) && Step(cc, op, st).Success? && Simple(op)
    ensures Replaced(st, 0, Pushes(op, cc.opts), Step(cc, op, st).value)
  {
    hide Replaced, Popped;
    NonePopped(st);
    if op.EmptyHash? {
      EmptyHashEntries(cc, st);
      PushEffect(st, 0, st, HashEntries(cc, NoHash, 0), Step(cc, op, st).value);
    } else if op.PopHash? {
      PopHashEffect(cc, st);
    } else if op.PushStringParam? {
      StringParamEffect(cc, op, st);
    } else {
      var st' := Step(cc, op, st).value;
      var es := if Pushes(op, cc.opts) == 0 then [] else [Last(st'.inlineStack)];
      assert st.inlineStack + [] == st.inlineStack;
      PushEffect(st, 0, st, es, st');
    }
  }

  lemma PopHashEffect(cc: Setting, st: State)
    requires SlotInv(st) && Step(cc, PopHash, st).Success?
    ensures Replaced(st, 0, 1 + Extra(cc.opts), Step(cc, PopHash, st).value)
  {
    hide Replaced, Popped;
    NonePopped(st);
    var s, o, e := st.inlineStack, Inl(JObject([])), Inl(JObject(DropUndefined(st.hash.value)));
    assert s + [o] + [e] == s + [o, e];
    assert s + [o] + [o] + [e] == s + [o, o, e];
    assert s + [o] + [o] + [o] + [e] == s + [o, o, o, e];
    var es := if cc.opts.trackIds then (if cc.opts.stringParams then [o, o, o, e] else [o, e]) else if cc.opts.stringParams then [o, o, e] else [e];
    PushEffect(st, 0, st, es, Step(cc, PopHash, st).value);
  }

  lemma StringParamEffect(cc: Setting, op: Op, st: State)
    requires SlotInv(st) && op.PushStringParam?
    ensures Replaced(st, 0, Pushes(op, cc.opts), Step(cc, op, st).value)
  {
    hide Replaced, Popped;
    NonePopped(st);
    var s, a, b, c := st.inlineStack, Lit(ContextExpr(cc, st.lastContext)), Lit(JStr(KindText(op.kind))), Lit(LiteralExpr(op.value));
    assert s + [a] + [b] == s + [a, b] && s + [a] + [b] + [c] == s + [a, b, c];
    PushEffect(st, 0, st, if op.kind.SubKind? then [a, b] else [a, b, c], Step(cc, op, st).value);
  }

  lemma OnePopped(st: State, st1: State, st': State)
    requires Popped(st, 1, st1) && st'.compileStack == st1.compileStack && st'.inlineStack == st1.inlineStack && st'.stackSlot == st1.stackSlot
    ensures Replaced(st, 1, 0, st')
  {
  }

  lemma AssignEffect(cc: Setting, key: string, st: State)
    requires SlotInv(st) && StepAssign(cc, key, st).Success?
    ensures Replaced(st, 1 + Extra(cc.opts), 0, StepAssign(cc, key, st).value)
  {
    hide PopStack, PopMany;
    PopEffect(st);
    var (v, st1) := PopStack(st).value;
    PopManyEffect(st1, Extra(cc.opts));
    var st2 := PopMany(st1, Extra(cc.opts)).value;
    PoppedTrans(st, 1, st1, Extra(cc.opts), st2);
  }

  lemma HelperEffect(cc: Setting, n: nat, name: string, isSimple: bool, st: State)
    requires SlotInv(st) && Step(cc, InvokeHelper(n, name, isSimple), st).Success?
    ensures Effect(InvokeHelper(n, name, isSimple), cc.opts, st, Step(cc, InvokeHelper(n, name, isSimple), st).value)
  {
    hide PopStack, SetupParams, Popped, Replaced;
    var op := InvokeHelper(n, name, isSimple);
    PopEffect(st);
    var (nonHelper, st1) := PopStack(st).value;
    PoppedInv();
    SetupEffect(cc, st1, name, n);
    var (jo, args, st2) := SetupParams(cc, st1, name, n).value;
    PoppedTrans(st, 1, st1, Pops(op, cc.opts) - 1, st2);
    PushEffect(st, Pops(op, cc.opts), st2, [Inl(JCall(HelperLookup(name, nonHelper, isSimple), args, Inline(jo)))], Step(cc, op, st).value);
  }

  lemma AmbiguousEffect(cc: Setting, name: string, hc: bool, st: State)
    requires SlotInv(st) && Step(cc, InvokeAmbiguous(name, hc), st).Success?
    ensures Effect(InvokeAmbiguous(name, hc), cc.opts, st, Step(cc, InvokeAmbiguous(name, hc), st).value)
  {
    hide PopStack, SetupParams;
    PopEffect(st);
    var (nonHelper, st1) := PopStack(st).value;
    var st2 := PushEmptyHash(cc, st1);
    EmptyHashEntries(cc, st1);
    var w := 1 + Extra(cc.opts);
    PushEffect(st1, 0, st1, HashEntries(cc, NoHash, 0), st2);
    SetupEffect(cc, st2, name, 0);
    var (jo, _, st3) := SetupParams(cc, st2, name, 0).value;
    ZeroTimes(w);
    assert Popped(st1, 2, st3);
    PoppedTrans(st, 1, st1, 2, st3);
    PushEffect(st, 3, st3, [Inl(AmbiguousCall(name, nonHelper, jo, hc))], Step(cc, InvokeAmbiguous(name, hc), st).value);
  }

  lemma AmbiguousBlockEffect(cc: Setting, st: State)
    requires SlotInv(st) && Step(cc, AmbiguousBlockValue, st).Success?
    ensures Effect(AmbiguousBlockValue, cc.opts, st, Step(cc, AmbiguousBlockValue, st).value)
  {
    hide SetupParams, FlushEntries;
    SetupEffect(cc, st, "", 0);
    ZeroTimes(1 + Extra(cc.opts));
    var (_, _, st1) := SetupParams(cc, st, "", 0).value;
    FlushEffect(cc, st1.(inlineStack := []), st1.inlineStack);
  }

  lemma AppendEffect(cc: Setting, st: State)
    requires SlotInv(st) && StepAppend(cc, st).Success?
    ensures Replaced(st, 1, 0, StepAppend(cc, st).value)
  {
    if st.inlineStack != [] {
      var st1 := ReplaceStack(st, OrEmpty).value;
      assert Front(st1.inlineStack) == Front(st.inlineStack);
      assert Logical(st)[..|Logical(st)| - 1] == st.compileStack + Front(st.inlineStack);
    } else {
      PopEffect(st);
    }
  }

  // ----- whole runs

  /** Net number of entries pushed. */
  function Net(ops: seq<Op>, o: Options): int {
    if ops == [] then 0 else Pushes(ops[0], o) - Pops(ops[0], o) + Net(ops[1..], o)
  }

  lemma EffectHeight(op: Op, o: Options, st: State, r: Result<State>)
    requires r.Success? ==> Effect(op, o, st, r.value)
    ensures r.Success? ==> SlotInv(r.value) && |Logical(r.value)| == |Logical(st)| - Pops(op, o) + Pushes(op, o) && |Logical(st)| >= Pops(op, o)
  {
  }

  /** On a stack of height `h` no opcode pops more entries than there are. */
  predicate Enough(ops: seq<Op>, h: int, o: Options) {
    ops == [] || (h >= Pops(ops[0], o) && Enough(ops[1..], h - Pops(ops[0], o) + Pushes(ops[0], o), o))
  }

  /** The height at the end, and "Invalid stack pop", follow from the documented effects alone: a run that does not fail has
      had enough entries throughout, one that has enough never fails that way, and none fails to rewrite the top. */
  lemma {:induction false} RunNet(cc: Setting, ops: seq<Op>, st: State)
    requires SlotInv(st)
    ensures var r := Run(cc, ops, st);
            r.Success? ==> SlotInv(r.value) && |Logical(r.value)| == |Logical(st)| + Net(ops, cc.opts) && Enough(ops, |Logical(st)|, cc.opts)
    ensures Run(cc, ops, st) == Failure(InvalidStackPop) ==> !Enough(ops, |Logical(st)|, cc.opts)
    ensures Run(cc, ops, st) != Failure(ReplaceStackOnNonInline)
    decreases |ops|
  {
    hide Step, Replaced;
    if ops != [] {
      StepEffect(cc, ops[0], st);
      EffectHeight(ops[0], cc.opts, st, Step(cc, ops[0], st));
      StepReady(cc, ops[0], st);
      if Step(cc, ops[0], st).Success? { RunNet(cc, ops[1..], Step(cc, ops[0], st).value); }
    }
  }

  lemma {:induction false} NetConcat(a: seq<Op>, b: seq<Op>, o: Options)
    ensures Net(a + b, o) == Net(a, o) + Net(b, o)
    decreases |a|
  {
    if a == [] { assert a + b == b; } else { assert (a + b)[1..] == a[1..] + b; NetConcat(a[1..], b, o); }
  }

  lemma NetOne(op: Op, o: Options)
    ensures Net([op], o) == Pushes(op, o) - Pops(op, o)
  {
    assert [op][1..] == [];
  }

  // ----- `stringParams` together with `trackIds`

  /** Entries that helper calls pop but nobody pushed when both options are on. */
  function Missing(e: Expr): nat
    decreases e, 1
  {
    match e
    case SubE(s) => Shortfall(s)
    case _ => 0
  }

  function Shortfall(s: Sexpr): nat
    decreases s, 0
  {
    ShortParams(s.params) + (match s.hash case NoHash => 0 case Hash(ps) => ShortPairs(ps))
  }

  function ShortParams(es: seq<Expr>): nat
    decreases es, 0
  {
    if es == [] then 0 else 1 + Missing(es[0]) + ShortParams(es[1..])
  }

  function ShortPairs(ps: seq<Pair>): nat
    decreases ps, 0
  {
    if ps == [] then 0 else 1 + Missing(ps[0].value) + ShortPairs(ps[1..])
  }

  lemma {:induction false} NetParam(e: Expr, o: Options)
    requires !GoodOptions(o)
    ensures Net(OpsParam(e, o), o) == 3 - Missing(e)
    decreases e, 1
  {
    hide Net, OpsExpr;
    var a, b := GetContext(PathDepth(e)), PushStringParam(StringParamValue(e), KindOf(e));
    NetOne(a, o);
    NetOne(b, o);
    NetConcat([a], [b], o);
    assert [a] + [b] == [a, b];
    assert OpsParam(e, o) == [a, b] + (if e.SubE? then OpsExpr(e, o) else []);
    if e.SubE? {
      SubOps(e, o);
      NetSexpr(e.sexpr, true, None, None, o);
      NetConcat([a, b], OpsExpr(e, o), o);
    } else {
      assert OpsParam(e, o) == [a, b];
    }
  }

  lemma SubOps(e: Expr, o: Options)
    requires e.SubE?
    ensures OpsExpr(e, o) == OpsSexpr(e.sexpr, true, None, None, o)
    ensures Classify(e.sexpr, true, o).Helper?
  {
  }

  lemma {:induction false} NetParams(es: seq<Expr>, o: Options)
    requires !GoodOptions(o)
    ensures Net(OpsParams(es, o), o) == 4 * |es| - ShortParams(es)
    decreases es, 0
  {
    if es != [] {
      NetParam(es[0], o);
      NetParams(es[1..], o);
      NetConcat(OpsParam(es[0], o), OpsParams(es[1..], o), o);
    }
  }

  lemma {:induction false} NetPairs(ps: seq<Pair>, o: Options)
    requires !GoodOptions(o)
    ensures Net(OpsPairValues(ps, o), o) == 4 * |ps| - ShortPairs(ps)
    decreases ps, 0
  {
    if ps != [] {
      NetParam(ps[0].value, o);
      NetPairs(ps[1..], o);
      NetConcat(OpsParam(ps[0].value, o), OpsPairValues(ps[1..], o), o);
    }
  }

  lemma {:induction false} NetAssigns(ps: seq<Pair>, o: Options)
    requires !GoodOptions(o)
    ensures Net(OpsAssigns(ps), o) == -4 * |ps|
    decreases |ps|
  {
    if ps != [] {
      NetAssigns(Front(ps), o);
      NetOne(AssignToHash(Last(ps).key), o);
      NetConcat([AssignToHash(Last(ps).key)], OpsAssigns(Front(ps)), o);
    }
  }

  lemma {:induction false} NetHash(h: Hash, o: Options)
    requires !GoodOptions(o)
    ensures Net(OpsHash(h, o), o) == 4 - match h case NoHash => 0 case Hash(ps) => ShortPairs(ps)
    decreases h, 1
  {
    match h
    case NoHash => NetOne(EmptyHash, o);
    case Hash(ps) =>
      NetPairs(ps, o);
      NetAssigns(ps, o);
      NetOne(PushHash, o);
      NetOne(PopHash, o);
      NetConcat([PushHash], OpsPairValues(ps, o), o);
      NetConcat([PushHash] + OpsPairValues(ps, o), OpsAssigns(ps), o);
      NetConcat([PushHash] + OpsPairValues(ps, o) + OpsAssigns(ps), [PopHash], o);
  }

  lemma NetPath(p: Path, falsy: bool, o: Options)
    ensures Net(OpsPath(p, falsy), o) == 1
  {
    var ops := OpsPath(p, falsy);
    assert ops == [ops[0]] + [ops[1]];
    NetConcat([ops[0]], [ops[1]], o);
    NetOne(ops[0], o);
    NetOne(ops[1], o);
  }

  /** The opcodes of an expression end with one that pushes its value. */
  lemma {:induction false} NetSexpr(s: Sexpr, isSub: bool, p: Option<nat>, i: Option<nat>, o: Options)
    requires !GoodOptions(o)
    ensures Net(OpsSexpr(s, isSub, p, i, o), o) == 1 - (if Classify(s, isSub, o).Helper? then Shortfall(s) else 0)
    ensures var ops := OpsSexpr(s, isSub, p, i, o); ops != [] && Pushes(Last(ops), o) == 1 && !Last(ops).AmbiguousBlockValue?
    decreases s, 0
  {
    var path := CalleePath(s.callee);
    hide Net, OpsPath, OpsParams, OpsHash;
    NetPath(path, false, o);
    NetTwo(p, i, o);
    match Classify(s, isSub, o)
    case Simple =>
      NetOne(ResolvePossibleLambda, o);
      NetConcat(OpsPath(path, false), [ResolvePossibleLambda], o);
    case Ambiguous => NetAmbiguous(path, p, i, o);
    case Helper =>
      NetParams(s.params, o);
      NetHash(s.hash, o);
      NetHelper(s, p, i, o);
  }

  lemma NetTwo(p: Option<nat>, i: Option<nat>, o: Options)
    ensures Net([PushProgram(p), PushProgram(i)], o) == 2
  {
    NetOne(PushProgram(p), o);
    NetOne(PushProgram(i), o);
    NetConcat([PushProgram(p)], [PushProgram(i)], o);
    assert [PushProgram(p)] + [PushProgram(i)] == [PushProgram(p), PushProgram(i)];
  }

  lemma NetAmbiguous(path: Path, p: Option<nat>, i: Option<nat>, o: Options)
    requires path.parts != []
    ensures Net([GetContext(path.depth), PushProgram(p), PushProgram(i)] + OpsPath(path, false) +
                [InvokeAmbiguous(path.parts[0], p.Some? || i.Some?)], o) == 1
  {
    hide Net, OpsPath;
    var gc, pp, invoke := [GetContext(path.depth)], [PushProgram(p), PushProgram(i)], InvokeAmbiguous(path.parts[0], p.Some? || i.Some?);
    NetOne(GetContext(path.depth), o);
    NetTwo(p, i, o);
    NetPath(path, false, o);
    NetOne(invoke, o);
    NetConcat(gc, pp, o);
    assert gc + pp == [GetContext(path.depth), PushProgram(p), PushProgram(i)];
    NetConcat(gc + pp, OpsPath(path, false), o);
    NetConcat(gc + pp + OpsPath(path, false), [invoke], o);
  }

  lemma NetHelper(s: Sexpr, p: Option<nat>, i: Option<nat>, o: Options)
    requires !GoodOptions(o)
    requires Net([PushProgram(p), PushProgram(i)], o) == 2
    ensures var path := CalleePath(s.callee);
            var call := if KnownHelper(path, o) then [InvokeKnownHelper(|s.params|, path.parts[0])]
                        else OpsPath(path, true) + [InvokeHelper(|s.params|, path.original, SimpleId(path))];
            Net(OpsParams(s.params, o) + [PushProgram(p), PushProgram(i)] + OpsHash(s.hash, o) + call, o) ==
            Net(OpsParams(s.params, o), o) + Net(OpsHash(s.hash, o), o) - 3 - 4 * |s.params|
  {
    hide Net, OpsParams, OpsHash, OpsPath;
    var path := CalleePath(s.callee);
    var front := OpsParams(s.params, o) + [PushProgram(p), PushProgram(i)];
    NetConcat(OpsParams(s.params, o), [PushProgram(p), PushProgram(i)], o);
    NetConcat(front, OpsHash(s.hash, o), o);
    if KnownHelper(path, o) {
      var known := InvokeKnownHelper(|s.params|, path.parts[0]);
      NetOne(known, o);
      NetConcat(front + OpsHash(s.hash, o), [known], o);
    } else {
      var unknown := InvokeHelper(|s.params|, path.original, SimpleId(path));
      NetOne(unknown, o);
      NetPath(path, true, o);
      NetConcat(OpsPath(path, true), [unknown], o);
      NetConcat(front + OpsHash(s.hash, o), OpsPath(path, true) + [unknown], o);
    }
  }

  /** A run that does not fail and ends with a push leaves something on the stack. */
  lemma PushedLast(cc: Setting, ops: seq<Op>, st: State)
    requires SlotInv(st) && ops != [] && Run(cc, ops, st).Success?
    requires Pushes(Last(ops), cc.opts) == 1 && !Last(ops).AmbiguousBlockValue?
    ensures |Logical(Run(cc, ops, st).value)| >= 1
  {
    hide Step;
    RunConcat(cc, Front(ops), [Last(ops)], st);
    assert Front(ops) + [Last(ops)] == ops;
    RunNet(cc, Front(ops), st);
    var st1 := Run(cc, Front(ops), st).value;
    RunOne(cc, Last(ops), st1);
    StepEffect(cc, Last(ops), st1);
  }

  // ----- hash keys an array does not take

  lemma {:induction false} ExprFails(cc: Setting, e: Expr, st: State)
    requires GoodOptions(cc.opts) && !ExprFits(e, cc.opts) && HashInv(st)
    ensures Run(cc, OpsExpr(e, cc.opts), st).Failure?
    decreases e, 0
  {
    hide Run;
    SexprFails(cc, e.sexpr, true, None, None, JNull, JNull, st);
  }

  lemma {:induction false} ParamFails(cc: Setting, e: Expr, st: State)
    requires GoodOptions(cc.opts) && !ExprFits(e, cc.opts) && HashInv(st)
    ensures Run(cc, OpsParam(e, cc.opts), st).Failure?
    decreases e, 1
  {
    hide Run, Step;
    var before := if cc.opts.stringParams then [GetContext(PathDepth(e))] + [PushStringParam(StringParamValue(e), KindOf(e))]
                  else if cc.opts.trackIds then [PushId(KindOf(e), IdText(e))] else [];
    assert OpsParam(e, cc.opts) == before + OpsExpr(e, cc.opts);
    RunConcat(cc, before, OpsExpr(e, cc.opts), st);
    if cc.opts.stringParams { RunStringParam(cc, e, st); } else if cc.opts.trackIds { RunId(cc, e, st); } else { RunNone(cc, st); }
    ExprFails(cc, e, Run(cc, before, st).value);
  }

  lemma RunNone(cc: Setting, st: State)
    ensures Run(cc, [], st) == Success(st)
  {
  }

  lemma {:induction false} ParamsFail(cc: Setting, es: seq<Expr>, st: State)
    requires GoodOptions(cc.opts) && HashInv(st)
    requires exists k :: 0 <= k < |es| && !ExprFits(es[k], cc.opts)
    ensures Run(cc, OpsParams(es, cc.opts), st).Failure?
    decreases es, 0
  {
    hide Run, ExprFits;
    RunConcat(cc, OpsParam(es[0], cc.opts), OpsParams(es[1..], cc.opts), st);
    if ExprFits(es[0], cc.opts) {
      RunParam(cc, es[0], st);
      var k :| 0 <= k < |es| && !ExprFits(es[k], cc.opts);
      assert es[1..][k - 1] == es[k];
      ParamsFail(cc, es[1..], Run(cc, OpsParam(es[0], cc.opts), st).value);
    } else {
      ParamFails(cc, es[0], st);
    }
  }

  lemma {:induction false} ValuesFail(cc: Setting, ps: seq<Pair>, st: State)
    requires GoodOptions(cc.opts) && HashInv(st)
    requires exists k :: 0 <= k < |ps| && !ExprFits(ps[k].value, cc.opts)
    ensures Run(cc, OpsPairValues(ps, cc.opts), st).Failure?
    decreases ps, 0
  {
    hide Run, ExprFits;
    RunConcat(cc, OpsParam(ps[0].value, cc.opts), OpsPairValues(ps[1..], cc.opts), st);
    if ExprFits(ps[0].value, cc.opts) {
      RunParam(cc, ps[0].value, st);
      var k :| 0 <= k < |ps| && !ExprFits(ps[k].value, cc.opts);
      assert ps[1..][k - 1] == ps[k];
      ValuesFail(cc, ps[1..], Run(cc, OpsParam(ps[0].value, cc.opts), st).value);
    } else {
      ParamFails(cc, ps[0].value, st);
    }
  }

  /** An assignment that no array takes. */
  lemma AssignFails(cc: Setting, p: Pair, st: State, below: seq<Entry>, slot: nat)
    requires GoodOptions(cc.opts) && p.key == "length" && !PairFits(p, cc.opts)
    requires st.inlineStack == below + ParamEntries(cc, p.value, slot)
    ensures Step(cc, AssignToHash(p.key), st).Failure?
  {
    hide TParam;
    var companions := Companions(cc, p.value);
    var st1 := st.(inlineStack := below + companions);
    assert Front(st.inlineStack) == below + companions;
    LengthIs(cc, p.value, slot);
    if companions != [] {
      assert Last(below + companions) == Last(companions);
      assert !LengthsFit(st1, Extra(cc.opts));
    }
  }

  lemma {:induction false} AssignsFail(cc: Setting, ps: seq<Pair>, st: State, pre: seq<Entry>, slot: nat)
    requires GoodOptions(cc.opts) && st.hash.Some?
    requires st.inlineStack == pre + AllEntries(cc, PairExprs(ps), slot)
    requires exists k :: 0 <= k < |ps| && ps[k].key == "length" && !PairFits(ps[k], cc.opts)
    ensures Run(cc, OpsAssigns(ps), st).Failure?
    decreases |ps|
  {
    hide Step, PairFits, TParam, ParamEntries, AllEntries, PutKey, PairExprs;
    var p := Last(ps);
    PairEntriesSnoc(cc, ps, pre, slot);
    var below := pre + AllEntries(cc, PairExprs(Front(ps)), slot);
    RunOne(cc, AssignToHash(p.key), st);
    assert OpsAssigns(ps) == [AssignToHash(p.key)] + OpsAssigns(Front(ps));
    RunConcat(cc, [AssignToHash(p.key)], OpsAssigns(Front(ps)), st);
    if p.key == "length" && !PairFits(p, cc.opts) {
      AssignFails(cc, p, st, below, slot);
    } else {
      StepAssignInline(cc, p, st, below, slot);
      var k :| 0 <= k < |ps| && ps[k].key == "length" && !PairFits(ps[k], cc.opts);
      assert Front(ps)[k] == ps[k];
      AssignsFail(cc, Front(ps), Step(cc, AssignToHash(p.key), st).value, pre, slot);
    }
  }

  lemma HashFails(cc: Setting, ps: seq<Pair>, st: State)
    requires GoodOptions(cc.opts) && !HashFits(Hash(ps), cc.opts) && HashInv(st)
    requires forall k :: 0 <= k < |ps| ==> ExprFits(ps[k].value, cc.opts)
    ensures Run(cc, OpsHash(Hash(ps), cc.opts), st).Failure?
  {
    hide Run, Step, ExprFits, AllEntries;
    var o := cc.opts;
    var st1 := OpenHash(cc, st);
    RunPairValues(cc, ps, st1);
    var st2 := Run(cc, OpsPairValues(ps, o), st1).value;
    RunConcat(cc, [PushHash], OpsPairValues(ps, o), st);
    RunConcat(cc, [PushHash] + OpsPairValues(ps, o), OpsAssigns(ps), st);
    RunConcat(cc, [PushHash] + OpsPairValues(ps, o) + OpsAssigns(ps), [PopHash], st);
    if exists k :: 0 <= k < |ps| && ps[k].key == "length" && !PairFits(ps[k], o) {
      AssignsFail(cc, ps, st2, st.inlineStack, st.stackSlot);
    } else {
      RunAssigns(cc, ps, st2, st.inlineStack, st.stackSlot);
      OwnPropertyKey();
      PairsHave(cc, ps, st.stackSlot, [], "hasOwnProperty");
      var st3 := Run(cc, OpsAssigns(ps), st2).value;
      PopHashFails(cc, st3);
    }
  }

  lemma PopHashFails(cc: Setting, st: State)
    requires st.hash.Some? && HasKey(st.hash.value, "hasOwnProperty")
    ensures Run(cc, [PopHash], st).Failure?
  {
    RunOne(cc, PopHash, st);
  }

  lemma {:induction false} ValueFails(cc: Setting, ps: seq<Pair>, st: State)
    requires GoodOptions(cc.opts) && HashInv(st)
    requires exists k :: 0 <= k < |ps| && !ExprFits(ps[k].value, cc.opts)
    ensures Run(cc, OpsHash(Hash(ps), cc.opts), st).Failure?
    decreases ps, 1
  {
    hide Run, Step, ExprFits;
    var o := cc.opts;
    var st1 := OpenHash(cc, st);
    ValuesFail(cc, ps, st1);
    RunConcat(cc, [PushHash], OpsPairValues(ps, o), st);
    RunConcat(cc, [PushHash] + OpsPairValues(ps, o), OpsAssigns(ps) + [PopHash], st);
    assert OpsHash(Hash(ps), o) == [PushHash] + OpsPairValues(ps, o) + (OpsAssigns(ps) + [PopHash]);
  }

  lemma {:induction false} SexprFails(cc: Setting, s: Sexpr, isSub: bool, p: Option<nat>, i: Option<nat>, fn: JExpr, inverse: JExpr, st: State)
    requires GoodOptions(cc.opts) && !KeysFit(s, cc.opts) && HashInv(st)
    requires ProgramsAre(cc, p, i, fn, inverse)
    ensures Run(cc, OpsSexpr(s, isSub, p, i, cc.opts), st).Failure?
    decreases s, 1
  {
    hide Run, Step, ExprFits;
    var o, path := cc.opts, CalleePath(s.callee);
    var pp := [PushProgram(p), PushProgram(i)];
    var call := if KnownHelper(path, o) then [InvokeKnownHelper(|s.params|, path.parts[0])]
                else OpsPath(path, true) + [InvokeHelper(|s.params|, path.original, SimpleId(path))];
    assert OpsSexpr(s, isSub, p, i, o) == OpsParams(s.params, o) + pp + OpsHash(s.hash, o) + call;
    RunConcat(cc, OpsParams(s.params, o), pp, st);
    RunConcat(cc, OpsParams(s.params, o) + pp, OpsHash(s.hash, o), st);
    RunConcat(cc, OpsParams(s.params, o) + pp + OpsHash(s.hash, o), call, st);
    if k :| 0 <= k < |s.params| && !ExprFits(s.params[k], o) {
      ParamsFail(cc, s.params, st);
    } else {
      RunParams(cc, s.params, st);
      var st1 := Run(cc, OpsParams(s.params, o), st).value;
      RunTwoPrograms(cc, p, i, fn, inverse, st1);
      var st2 := Run(cc, pp, st1).value;
      if k :| 0 <= k < |s.hash.pairs| && !ExprFits(s.hash.pairs[k].value, o) {
        ValueFails(cc, s.hash.pairs, st2);
      } else {
        HashFails(cc, s.hash.pairs, st2);
      }
    }
  }

  lemma BareFits(s: Sexpr, o: Options)
    requires Bare(s)
    ensures KeysFit(s, o)
  {
  }

  /** From an empty stack, the opcodes of a mustache or block head run without error exactly when `stringParams` and
      `trackIds` are not both on or the head has neither parameters nor hash pairs, and the keys of its hashes fit; and then
      they push its one value. */
  lemma ExactlyIfFits(cc: Setting, s: Sexpr, isSub: bool, p: Option<nat>, i: Option<nat>, fn: JExpr, inverse: JExpr, st: State)
    requires Logical(st) == [] && SlotInv(st) && HashInv(st)
    requires ProgramsAre(cc, p, i, fn, inverse)
    ensures Run(cc, OpsSexpr(s, isSub, p, i, cc.opts), st).Success? <==> HeadFits(s, cc.opts)
  {
    hide Run, OpsSexpr, KeysFit;
    if HeadFits(s, cc.opts) {
      RunSexpr(cc, s, isSub, p, i, fn, inverse, st);
    } else if GoodOptions(cc.opts) {
      SexprFails(cc, s, isSub, p, i, fn, inverse, st);
    } else if Bare(s) {
      BareFits(s, cc.opts);
    } else if Run(cc, OpsSexpr(s, isSub, p, i, cc.opts), st).Success? {
      NetSexpr(s, isSub, p, i, cc.opts);
      RunNet(cc, OpsSexpr(s, isSub, p, i, cc.opts), st);
      PushedLast(cc, OpsSexpr(s, isSub, p, i, cc.opts), st);
    }
  }
}

/** The expression each node leaves on the symbolic stack, computed directly from the tree,
    and the proof that running the node's opcodes pushes exactly that and disturbs nothing below it. */
module HandlebarsTranslate {
  import opened Sequences
  import opened Wrappers
  import opened HandlebarsAst
  import opened HandlebarsHash
  import opened Numerals
  import opened HandlebarsOpcodes
  import opened HandlebarsTarget
  import opened HandlebarsMachine

  // ----- direct translation; `slot` is the number of temporaries in use underneath

  function TParts(top: Entry, parts: seq<string>, falsy: bool, slot: nat): Entry
    decreases |parts|
  {
    if parts == [] then top
    else TParts(Inl(RewriteEntry(if falsy then FalsyGet(parts[0]) else GuardedGet(parts[0]), top, slot)), parts[1..], falsy, slot)
  }

  function TPath(cc: Setting, p: Path, falsy: bool, slot: nat): Entry {
    if NoName(p) then Lit(ContextExpr(cc, p.depth))
    else if p.data then TParts(Lit(JData(p.depth)), p.parts, true, slot)
    else TParts(Lit(ContextExpr(cc, p.depth)), p.parts, falsy, slot)
  }

  function TExpr(cc: Setting, e: Expr, slot: nat): Entry
    decreases e, 0
  {
    match e
    case PathE(p) => TPath(cc, p, false, slot)
    case StringE(t) => Lit(JStr(t))
    case NumberE(t) => Lit(JNum(t))
    case BooleanE(b) => Lit(JBool(b))
    case UndefinedE => Lit(JUndefined)
    case NullE => Lit(JWord(NullWord))
    case SubE(s) => Inl(TSexpr(cc, s, true, JNull, JNull, slot))
  }

  /** The value entry of a parameter; `stringParams` passes text instead of resolving paths. */
  function TParam(cc: Setting, e: Expr, slot: nat): Entry
    decreases e, 1
  {
    if cc.opts.stringParams && !e.SubE? then Lit(LiteralExpr(StringParamValue(e))) else TExpr(cc, e, slot)
  }

  function TParams(cc: Setting, es: seq<Expr>, slot: nat): seq<JExpr>
    decreases es, 0
  {
    if es == [] then [] else [TParam(cc, es[0], slot).e] + TParams(cc, es[1..], slot)
  }

  /** Values are assigned last pair first. */
  function TPairs(cc: Setting, ps: seq<Pair>, slot: nat, acc: seq<JPair>): seq<JPair>
    decreases ps, 0
  {
    if ps == [] then acc
    else TPairs(cc, ps[..|ps| - 1], slot, PutKey(acc, ps[|ps| - 1].key, TParam(cc, ps[|ps| - 1].value, slot).e))
  }

  function THash(cc: Setting, h: Hash, slot: nat): JExpr
    decreases h, 1
  {
    match h
    case NoHash => JObject([])
    case Hash(ps) => JObject(DropUndefined(TPairs(cc, ps, slot, [])))
  }

  function TSexpr(cc: Setting, s: Sexpr, isSub: bool, fn: JExpr, inverse: JExpr, slot: nat): JExpr
    decreases s, 1
  {
    var path := CalleePath(s.callee);
    match Classify(s, isSub, cc.opts)
    case Simple => JLambda(TPath(cc, path, false, slot).e)
    case Ambiguous =>
      AmbiguousCall(path.parts[0], TPath(cc, path, false, slot).e,
                    JOptions(path.parts[0], JObject([]), FnOf(fn, inverse), FnOf(inverse, fn)),
                    fn != JNull || inverse != JNull)
    case Helper =>
      var args := TParams(cc, s.params, slot);
      var h := THash(cc, s.hash, slot);
      if KnownHelper(path, cc.opts) then
        JCall(JHelperNamed(path.parts[0]), args, Inline(JOptions(path.parts[0], h, FnOf(fn, inverse), FnOf(inverse, fn))))
      else
        JCall(HelperLookup(path.original, TPath(cc, path, true, slot).e, SimpleId(path)), args,
              Inline(JOptions(path.original, h, FnOf(fn, inverse), FnOf(inverse, fn))))
  }

  // ----- values that are array lengths

  lemma {:induction false} PartsNoLength(top: Entry, parts: seq<string>, falsy: bool, slot: nat)
    requires ArrayLength(top.e).None?
    ensures ArrayLength(TParts(top, parts, falsy, slot).e).None?
    decreases |parts|
  {
    if parts != [] {
      PartsNoLength(Inl(RewriteEntry(if falsy then FalsyGet(parts[0]) else GuardedGet(parts[0]), top, slot)), parts[1..], falsy, slot);
    }
  }

  /** Only the compiler's own numbers and booleans can be the length of an array, without companions. */
  lemma LengthIs(cc: Setting, e: Expr, slot: nat)
    ensures !cc.opts.stringParams && !cc.opts.trackIds ==> ArrayLength(TParam(cc, e, slot).e) == LengthOf(e)
  {
    match e
    case PathE(p) =>
      PartsNoLength(Lit(JData(p.depth)), p.parts, true, slot);
      PartsNoLength(Lit(ContextExpr(cc, p.depth)), p.parts, false, slot);
    case SubE(c) => assert ArrayLength(TSexpr(cc, c, true, JNull, JNull, slot)).None?;
    case _ =>
  }

  // ----- what running opcodes does

  /** `st'` is `st` with `es` pushed; only bookkeeping that later opcodes reset may differ otherwise. */
  predicate Pushed(st: State, es: seq<Entry>, st': State) {
    st' == st.(inlineStack := st.inlineStack + es, lastContext := st'.lastContext, stackVars := st'.stackVars,
               lastHelper := st'.lastHelper, registers := st'.registers)
  }

  predicate RunPushes(cc: Setting, ops: seq<Op>, st: State, es: seq<Entry>) {
    var r := Run(cc, ops, st);
    r.Success? && Pushed(st, es, r.value)
  }

  predicate GoodOptions(o: Options) { !(o.trackIds && o.stringParams) }

  /** No parameters and no hash pairs. */
  predicate Bare(s: Sexpr) { s.params == [] && (s.hash == NoHash || s.hash == Hash([])) }

  /** The opcodes of a head do not fail. */
  predicate HeadFits(s: Sexpr, o: Options) { (GoodOptions(o) || Bare(s)) && KeysFit(s, o) }

  /** No current hash means no suspended ones. */
  predicate HashInv(st: State) { st.hash.None? ==> st.hashes == [] }

  lemma {:induction false} RunConcat(cc: Setting, a: seq<Op>, b: seq<Op>, st: State)
    ensures Run(cc, a + b, st) == (match Run(cc, a, st) case Success(x) => Run(cc, b, x) case Failure(e) => Failure(e))
    decreases |a|
  {
    if a == [] {
      assert a + b == b;
    } else {
      assert (a + b)[1..] == a[1..] + b;
      var r := Step(cc, a[0], st);
      if r.Success? { RunConcat(cc, a[1..], b, r.value); }
    }
  }

  lemma RunOne(cc: Setting, op: Op, st: State)
    ensures Run(cc, [op], st) == Step(cc, op, st)
  {
    var r := Step(cc, op, st);
    if r.Success? { assert Run(cc, [op][1..], r.value) == r; }
  }

  /** Chaining two runs that push. */
  lemma RunPushesConcat(cc: Setting, a: seq<Op>, b: seq<Op>, st: State, es: seq<Entry>, fs: seq<Entry>)
    requires RunPushes(cc, a, st, es)
    requires RunPushes(cc, b, Run(cc, a, st).value, fs)
    ensures RunPushes(cc, a + b, st, es + fs)
    ensures Run(cc, a + b, st) == Run(cc, b, Run(cc, a, st).value)
  {
    hide Run, Step;
    RunConcat(cc, a, b, st);
    assert st.inlineStack + es + fs == st.inlineStack + (es + fs);
  }

  lemma {:induction false} ResolvePushes(cc: Setting, st: State, top: Entry, parts: seq<string>, falsy: bool)
    requires st.inlineStack != [] && Last(st.inlineStack) == top
    ensures var r := ResolveParts(st, parts, falsy);
            r.Success? &&
            r.value == st.(inlineStack := Front(st.inlineStack) + [TParts(top, parts, falsy, st.stackSlot)], stackVars := r.value.stackVars)
    decreases |parts|
  {
    if parts == [] {
      assert Front(st.inlineStack) + [top] == st.inlineStack;
    } else {
      var st1 := ReplaceStack(st, if falsy then FalsyGet(parts[0]) else GuardedGet(parts[0])).value;
      ResolvePushes(cc, st1, Last(st1.inlineStack), parts[1..], falsy);
    }
  }

  lemma RunPath(cc: Setting, p: Path, falsy: bool, st: State)
    ensures RunPushes(cc, OpsPath(p, falsy), st, [TPath(cc, p, falsy, st.stackSlot)])
    ensures Run(cc, OpsPath(p, falsy), st).value.lastHelper == st.lastHelper
  {
    var st1 := st.(lastContext := p.depth);
    var op := OpsPath(p, falsy)[1];
    assert OpsPath(p, falsy) == [GetContext(p.depth)] + [op];
    RunConcat(cc, [GetContext(p.depth)], [op], st);
    RunOne(cc, GetContext(p.depth), st);
    RunOne(cc, op, st1);
    if !NoName(p) {
      if p.data {
        ResolvePushes(cc, PushLit(st1, JData(p.depth)), Lit(JData(p.depth)), p.parts, true);
      } else {
        ResolvePushes(cc, PushLit(st1, ContextExpr(cc, p.depth)), Lit(ContextExpr(cc, p.depth)), p.parts, falsy);
      }
    }
  }

  // ----- parameters: a value with its companions underneath

  function Companions(cc: Setting, e: Expr): seq<Entry> {
    if cc.opts.stringParams then [Lit(ContextExpr(cc, PathDepth(e))), Lit(JStr(KindText(KindOf(e))))]
    else if cc.opts.trackIds then
      [Lit(match KindOf(e) case PathKind => JStr(IdText(e)) case SubKind => JWord(TrueWord) case _ => JWord(NullWord))]
    else []
  }

  function ParamEntries(cc: Setting, e: Expr, slot: nat): seq<Entry> {
    Companions(cc, e) + [TParam(cc, e, slot)]
  }

  function AllEntries(cc: Setting, es: seq<Expr>, slot: nat): seq<Entry> {
    if es == [] then [] else ParamEntries(cc, es[0], slot) + AllEntries(cc, es[1..], slot)
  }

  function PairExprs(ps: seq<Pair>): (es: seq<Expr>)
    ensures |es| == |ps|
    ensures forall i :: 0 <= i < |ps| ==> es[i] == ps[i].value
  {
    if ps == [] then [] else [ps[0].value] + PairExprs(ps[1..])
  }

  lemma {:induction false} EntriesSnoc(cc: Setting, es: seq<Expr>, slot: nat)
    requires es != []
    ensures AllEntries(cc, es, slot) == AllEntries(cc, Front(es), slot) + ParamEntries(cc, Last(es), slot)
    ensures TParams(cc, es, slot) == TParams(cc, Front(es), slot) + [TParam(cc, Last(es), slot).e]
    decreases |es|
  {
    hide TParam, Companions;
    if |es| > 1 {
      var e, rest := es[0], es[1..];
      EntriesSnoc(cc, rest, slot);
      assert Front(es)[1..] == Front(rest) && Last(es) == Last(rest) && Front(es)[0] == e;
      assert ParamEntries(cc, e, slot) + (AllEntries(cc, Front(rest), slot) + ParamEntries(cc, Last(es), slot)) ==
             ParamEntries(cc, e, slot) + AllEntries(cc, Front(rest), slot) + ParamEntries(cc, Last(es), slot);
    } else {
      assert Front(es) == [] && es[1..] == [];
    }
  }

  lemma {:induction false} PopManyInline(st: State, pre: seq<Entry>, es: seq<Entry>)
    requires st.inlineStack == pre + es
    ensures PopMany(st, |es|) == Success(st.(inlineStack := pre))
    decreases |es|
  {
    if es == [] {
      assert pre + es == pre;
    } else {
      assert Front(pre + es) == pre + Front(es);
      PopManyInline(st.(inlineStack := pre + Front(es)), pre, Front(es));
    }
  }

  lemma PopParamInline(cc: Setting, st: State, below: seq<Entry>, e: Expr, slot: nat)
    requires GoodOptions(cc.opts)
    requires st.inlineStack == below + ParamEntries(cc, e, slot)
    ensures PopStack(st).Success? && PopStack(st).value.0 == TParam(cc, e, slot).e
    ensures PopMany(PopStack(st).value.1, Extra(cc.opts)) == Success(st.(inlineStack := below))
  {
    hide TParam, PopMany;
    var companions := Companions(cc, e);
    assert Front(st.inlineStack) == below + companions;
    PopManyInline(st.(inlineStack := below + companions), below, companions);
  }

  lemma {:induction false} PopParamsInline(cc: Setting, st: State, pre: seq<Entry>, es: seq<Expr>, slot: nat)
    requires GoodOptions(cc.opts) || es == []
    requires st.inlineStack == pre + AllEntries(cc, es, slot)
    ensures PopParams(cc, st, |es|) == Success((TParams(cc, es, slot), st.(inlineStack := pre)))
    decreases |es|
  {
    if es == [] {
      assert pre + [] == pre;
    } else {
      EntriesSnoc(cc, es, slot);
      hide AllEntries, TParams, TParam, ParamEntries, PopMany, PopStack;
      var below := pre + AllEntries(cc, Front(es), slot);
      assert st.inlineStack == below + ParamEntries(cc, Last(es), slot);
      PopParamInline(cc, st, below, Last(es), slot);
      PopParamsInline(cc, st.(inlineStack := below), pre, Front(es), slot);
    }
  }

  /** The hash entry with its companions, as `emptyHash` and `popHash` leave it. */
  function HashEntries(cc: Setting, h: Hash, slot: nat): seq<Entry> {
    (if cc.opts.trackIds then [Inl(JObject([]))] else []) +
    (if cc.opts.stringParams then [Inl(JObject([])), Inl(JObject([]))] else []) +
    [if h.NoHash? then Lit(THash(cc, h, slot)) else Inl(THash(cc, h, slot))]
  }

  lemma SetupParamsInline(cc: Setting, st: State, name: string, pre: seq<Entry>, es: seq<Expr>, p: JExpr, i: JExpr, h: Hash, slot: nat)
    requires GoodOptions(cc.opts) || es == []
    requires st.inlineStack == pre + AllEntries(cc, es, slot) + [Lit(p), Lit(i)] + HashEntries(cc, h, slot)
    ensures SetupParams(cc, st, name, |es|) ==
            Success((JOptions(name, THash(cc, h, slot), FnOf(p, i), FnOf(i, p)), TParams(cc, es, slot), st.(inlineStack := pre)))
  {
    hide AllEntries, THash, TParams, PopParams;
    var low := pre + AllEntries(cc, es, slot);
    var hs := HashEntries(cc, h, slot);
    assert Last(st.inlineStack) == Last(hs);
    assert Front(st.inlineStack) == low + [Lit(p), Lit(i)] + Front(hs);
    PopManyInline(st.(inlineStack := low + [Lit(p), Lit(i)] + Front(hs)), low + [Lit(p), Lit(i)], Front(hs));
    assert Front(low + [Lit(p), Lit(i)]) == low + [Lit(p)];
    assert Front(low + [Lit(p)]) == low;
    PopParamsInline(cc, st.(inlineStack := low), pre, es, slot);
  }

  // ----- opcodes of expressions

  lemma {:induction false} RunExpr(cc: Setting, e: Expr, st: State)
    requires GoodOptions(cc.opts) && ExprFits(e, cc.opts) && HashInv(st)
    ensures RunPushes(cc, OpsExpr(e, cc.opts), st, [TExpr(cc, e, st.stackSlot)])
    ensures Run(cc, OpsExpr(e, cc.opts), st).value.lastHelper == st.lastHelper
    decreases e, 0
  {
    match e
    case PathE(p) => RunPath(cc, p, false, st);
    case SubE(s) => RunSexpr(cc, s, true, None, None, JNull, JNull, st);
    case _ => RunOne(cc, OpsExpr(e, cc.opts)[0], st);
  }

  lemma {:induction false} RunParam(cc: Setting, e: Expr, st: State)
    requires GoodOptions(cc.opts) && ExprFits(e, cc.opts) && HashInv(st)
    ensures RunPushes(cc, OpsParam(e, cc.opts), st, ParamEntries(cc, e, st.stackSlot))
    ensures Run(cc, OpsParam(e, cc.opts), st).value.lastHelper == st.lastHelper
    decreases e, 1
  {
    hide Run, Step;
    if cc.opts.stringParams {
      RunStringParam(cc, e, st);
      if e.SubE? {
        var ops := [GetContext(PathDepth(e))] + [PushStringParam(StringParamValue(e), KindOf(e))];
        assert ops == [GetContext(PathDepth(e)), PushStringParam(StringParamValue(e), KindOf(e))];
        RunExpr(cc, e, Run(cc, ops, st).value);
        RunPushesConcat(cc, ops, OpsExpr(e, cc.opts), st, Companions(cc, e), [TExpr(cc, e, st.stackSlot)]);
      } else {
        assert OpsParam(e, cc.opts) == [GetContext(PathDepth(e))] + [PushStringParam(StringParamValue(e), KindOf(e))];
      }
    } else if cc.opts.trackIds {
      RunId(cc, e, st);
      var ops := [PushId(KindOf(e), IdText(e))];
      RunExpr(cc, e, Run(cc, ops, st).value);
      RunPushesConcat(cc, ops, OpsExpr(e, cc.opts), st, Companions(cc, e), [TExpr(cc, e, st.stackSlot)]);
    } else {
      RunExpr(cc, e, st);
      assert OpsParam(e, cc.opts) == OpsExpr(e, cc.opts);
      assert ParamEntries(cc, e, st.stackSlot) == [TExpr(cc, e, st.stackSlot)];
    }
  }

  lemma RunId(cc: Setting, e: Expr, st: State)
    requires cc.opts.trackIds && !cc.opts.stringParams
    ensures RunPushes(cc, [PushId(KindOf(e), IdText(e))], st, Companions(cc, e))
    ensures Run(cc, [PushId(KindOf(e), IdText(e))], st).value.lastHelper == st.lastHelper
  {
    RunOne(cc, PushId(KindOf(e), IdText(e)), st);
  }

  lemma RunStringParam(cc: Setting, e: Expr, st: State)
    requires cc.opts.stringParams
    ensures var ops := [GetContext(PathDepth(e))] + [PushStringParam(StringParamValue(e), KindOf(e))];
            RunPushes(cc, ops, st, if e.SubE? then Companions(cc, e) else ParamEntries(cc, e, st.stackSlot)) &&
            Run(cc, ops, st).value.lastHelper == st.lastHelper
  {
    var a, b := GetContext(PathDepth(e)), PushStringParam(StringParamValue(e), KindOf(e));
    RunConcat(cc, [a], [b], st);
    RunOne(cc, a, st);
    RunOne(cc, b, st.(lastContext := PathDepth(e)));
  }

  lemma {:induction false} RunParams(cc: Setting, es: seq<Expr>, st: State)
    requires HashInv(st) && (GoodOptions(cc.opts) || es == [])
    requires forall k :: 0 <= k < |es| ==> ExprFits(es[k], cc.opts)
    ensures RunPushes(cc, OpsParams(es, cc.opts), st, AllEntries(cc, es, st.stackSlot))
    ensures Run(cc, OpsParams(es, cc.opts), st).value.lastHelper == st.lastHelper
    decreases es, 0
  {
    hide Step;
    if es == [] {
      assert st.inlineStack + [] == st.inlineStack;
    } else {
      RunParam(cc, es[0], st);
      var st1 := Run(cc, OpsParam(es[0], cc.opts), st).value;
      RunParams(cc, es[1..], st1);
      RunPushesConcat(cc, OpsParam(es[0], cc.opts), OpsParams(es[1..], cc.opts), st,
                      ParamEntries(cc, es[0], st.stackSlot), AllEntries(cc, es[1..], st.stackSlot));
    }
  }

  lemma {:induction false} RunPairValues(cc: Setting, ps: seq<Pair>, st: State)
    requires HashInv(st) && (GoodOptions(cc.opts) || ps == [])
    requires forall k :: 0 <= k < |ps| ==> ExprFits(ps[k].value, cc.opts)
    ensures RunPushes(cc, OpsPairValues(ps, cc.opts), st, AllEntries(cc, PairExprs(ps), st.stackSlot))
    ensures Run(cc, OpsPairValues(ps, cc.opts), st).value.lastHelper == st.lastHelper
    decreases ps, 0
  {
    hide Step;
    if ps == [] {
      assert st.inlineStack + [] == st.inlineStack;
    } else {
      RunParam(cc, ps[0].value, st);
      var st1 := Run(cc, OpsParam(ps[0].value, cc.opts), st).value;
      RunPairValues(cc, ps[1..], st1);
      assert PairExprs(ps)[1..] == PairExprs(ps[1..]);
      RunPushesConcat(cc, OpsParam(ps[0].value, cc.opts), OpsPairValues(ps[1..], cc.opts), st,
                      ParamEntries(cc, ps[0].value, st.stackSlot), AllEntries(cc, PairExprs(ps[1..]), st.stackSlot));
    }
  }

  lemma StepAssignInline(cc: Setting, p: Pair, st: State, below: seq<Entry>, slot: nat)
    requires GoodOptions(cc.opts) && st.hash.Some? && (p.key == "length" ==> PairFits(p, cc.opts))
    requires st.inlineStack == below + ParamEntries(cc, p.value, slot)
    ensures Step(cc, AssignToHash(p.key), st) ==
            Success(st.(inlineStack := below, hash := Some(PutKey(st.hash.value, p.key, TParam(cc, p.value, slot).e))))
  {
    hide PutKey;
    var companions := Companions(cc, p.value);
    assert Front(st.inlineStack) == below + companions;
    PopManyInline(st.(inlineStack := below + companions), below, companions);
  }

  lemma PairEntriesSnoc(cc: Setting, ps: seq<Pair>, pre: seq<Entry>, slot: nat)
    requires ps != []
    ensures pre + AllEntries(cc, PairExprs(ps), slot) ==
            pre + AllEntries(cc, PairExprs(Front(ps)), slot) + ParamEntries(cc, Last(ps).value, slot)
  {
    hide AllEntries, ParamEntries;
    var es := PairExprs(ps);
    assert Front(es) == PairExprs(Front(ps));
    EntriesSnoc(cc, es, slot);
  }

  /** Each assignment pops one value with its companions into the current hash. */
  lemma {:induction false} RunAssigns(cc: Setting, ps: seq<Pair>, st: State, pre: seq<Entry>, slot: nat)
    requires st.hash.Some? && (GoodOptions(cc.opts) || ps == [])
    requires forall k :: 0 <= k < |ps| && ps[k].key == "length" ==> PairFits(ps[k], cc.opts)
    requires st.inlineStack == pre + AllEntries(cc, PairExprs(ps), slot)
    ensures Run(cc, OpsAssigns(ps), st) ==
            Success(st.(inlineStack := pre, hash := Some(TPairs(cc, ps, slot, st.hash.value))))
    decreases |ps|
  {
    hide Step;
    if ps == [] {
      assert pre + [] == pre;
    } else {
      hide AllEntries, ParamEntries, PairFits, TParam, PutKey;
      PairEntriesSnoc(cc, ps, pre, slot);
      var below := pre + AllEntries(cc, PairExprs(Front(ps)), slot);
      var op := AssignToHash(Last(ps).key);
      StepAssignInline(cc, Last(ps), st, below, slot);
      var st1 := Step(cc, op, st).value;
      RunOne(cc, op, st);
      assert OpsAssigns(ps) == [op] + OpsAssigns(Front(ps));
      RunConcat(cc, [op], OpsAssigns(Front(ps)), st);
      RunAssigns(cc, Front(ps), st1, pre, slot);
    }
  }

  predicate HashFits(h: Hash, o: Options) {
    h.Hash? ==> forall k :: 0 <= k < |h.pairs| ==> ExprFits(h.pairs[k].value, o) && PairFits(h.pairs[k], o)
  }

  lemma {:induction false} RunHash(cc: Setting, h: Hash, st: State)
    requires HashInv(st) && (GoodOptions(cc.opts) || h == NoHash || h == Hash([])) && HashFits(h, cc.opts)
    ensures RunPushes(cc, OpsHash(h, cc.opts), st, HashEntries(cc, h, st.stackSlot))
    ensures Run(cc, OpsHash(h, cc.opts), st).value.lastHelper == st.lastHelper
    decreases h, 1
  {
    match h
    case NoHash => RunEmptyHash(cc, st);
    case Hash(ps) =>
      hide Run, Step, HashEntries, AllEntries;
      var o := cc.opts;
      var st1 := OpenHash(cc, st);
      RunPairValues(cc, ps, st1);
      var st2 := Run(cc, OpsPairValues(ps, o), st1).value;
      RunHashEnd(cc, ps, st, st1, st2);
  }

  lemma RunEmptyHash(cc: Setting, st: State)
    ensures RunPushes(cc, OpsHash(NoHash, cc.opts), st, HashEntries(cc, NoHash, st.stackSlot))
    ensures Run(cc, OpsHash(NoHash, cc.opts), st).value.lastHelper == st.lastHelper
  {
    assert HashEntries(cc, NoHash, st.stackSlot) == HashEntries(cc, NoHash, 0);
    hide Run, HashEntries, PushEmptyHash;
    RunOne(cc, EmptyHash, st);
    EmptyHashEntries(cc, st);
  }

  lemma OpenHash(cc: Setting, st: State) returns (st1: State)
    ensures Run(cc, [PushHash], st) == Success(st1)
    ensures st1.hash == Some([]) && st1.hashes == (match st.hash case None => st.hashes case Some(h) => st.hashes + [h])
    ensures st1 == st.(hash := st1.hash, hashes := st1.hashes)
  {
    RunOne(cc, PushHash, st);
    st1 := Step(cc, PushHash, st).value;
  }

  lemma {:induction false} PairsHave(cc: Setting, ps: seq<Pair>, slot: nat, acc: seq<JPair>, key: string)
    requires Index(key).None? && key != "length" && key != "__proto__"
    ensures HasKey(TPairs(cc, ps, slot, acc), key) <==> HasKey(acc, key) || exists k :: 0 <= k < |ps| && ps[k].key == key
    decreases |ps|
  {
    hide HasKey, Index, TParam, Put;
    if ps != [] {
      var p := Last(ps);
      PutHas(acc, p.key, TParam(cc, p.value, slot).e, ArrayLength(TParam(cc, p.value, slot).e).GetOr(0), key);
      PairsHave(cc, Front(ps), slot, PutKey(acc, p.key, TParam(cc, p.value, slot).e), key);
      if k :| 0 <= k < |ps| && ps[k].key == key { assert k < |ps| - 1 ==> Front(ps)[k].key == key; }
      if k :| 0 <= k < |Front(ps)| && Front(ps)[k].key == key { assert ps[k].key == key; }
    }
  }

  /** `hasOwnProperty` is no array index. */
  lemma OwnPropertyKey()
    ensures Index("hasOwnProperty").None?
  {
    assert !IsDigit("hasOwnProperty"[13]);
  }

  lemma RunHashEnd(cc: Setting, ps: seq<Pair>, st: State, st1: State, st2: State)
    requires HashInv(st) && (GoodOptions(cc.opts) || ps == [])
    requires forall k :: 0 <= k < |ps| ==> PairFits(ps[k], cc.opts)
    requires Run(cc, [PushHash], st) == Success(st1)
    requires st1.hash == Some([]) && st1.hashes == (match st.hash case None => st.hashes case Some(h) => st.hashes + [h])
    requires st1 == st.(hash := st1.hash, hashes := st1.hashes)
    requires Run(cc, OpsPairValues(ps, cc.opts), st1) == Success(st2)
    requires Pushed(st1, AllEntries(cc, PairExprs(ps), st.stackSlot), st2)
    ensures RunPushes(cc, OpsHash(Hash(ps), cc.opts), st, HashEntries(cc, Hash(ps), st.stackSlot))
    ensures Run(cc, OpsHash(Hash(ps), cc.opts), st).value.lastHelper == st2.lastHelper
  {
    hide Run, Step;
    var o := cc.opts;
    RunConcat(cc, [PushHash], OpsPairValues(ps, o), st);
    RunConcat(cc, [PushHash] + OpsPairValues(ps, o), OpsAssigns(ps), st);
    RunConcat(cc, [PushHash] + OpsPairValues(ps, o) + OpsAssigns(ps), [PopHash], st);
    RunAssigns(cc, ps, st2, st.inlineStack, st.stackSlot);
    var st3 := st2.(inlineStack := st.inlineStack, hash := Some(TPairs(cc, ps, st.stackSlot, [])));
    OwnPropertyKey();
    PairsHave(cc, ps, st.stackSlot, [], "hasOwnProperty");
    StepPopHashRestores(cc, st, st3);
  }

  lemma StepPopHashRestores(cc: Setting, st: State, st3: State)
    requires HashInv(st) && st3.hash.Some? && !HasKey(st3.hash.value, "hasOwnProperty")
    requires st3.hashes == match st.hash case None => st.hashes case Some(h) => st.hashes + [h]
    ensures var es := (if cc.opts.trackIds then [Inl(JObject([]))] else []) +
                      (if cc.opts.stringParams then [Inl(JObject([])), Inl(JObject([]))] else []) +
                      [Inl(JObject(DropUndefined(st3.hash.value)))];
            Run(cc, [PopHash], st3) == Success(st3.(inlineStack := st3.inlineStack + es, hash := st.hash, hashes := st.hashes))
  {
    RestoreHashes(st);
    var s, o, e := st3.inlineStack, Inl(JObject([])), Inl(JObject(DropUndefined(st3.hash.value)));
    assert s + [o] + [e] == s + [o, e];
    assert s + [o] + [o] + [e] == s + [o, o, e];
    assert s + [o] + [o] + [o] + [e] == s + [o, o, o, e];
    assert [] + [] + [e] == [e] && [o] + [] + [e] == [o, e] && [] + [o, o] + [e] == [o, o, e] && [o] + [o, o] + [e] == [o, o, o, e];
    if st.hash.Some? { assert Last(st3.hashes) == st.hash.value && Front(st3.hashes) == st.hashes; }
    RunOne(cc, PopHash, st3);
  }

  /** Pushing the current hash on the list of suspended ones and popping it again changes nothing. */
  lemma RestoreHashes(st: State)
    ensures st.hash.Some? ==> Last(st.hashes + [st.hash.value]) == st.hash.value && Front(st.hashes + [st.hash.value]) == st.hashes
  {
  }

  /** `fn` and `inverse` are what `pushProgram` pushes for the two guids. */
  predicate ProgramsAre(cc: Setting, p: Option<nat>, i: Option<nat>, fn: JExpr, inverse: JExpr) {
    ProgramExpr(cc, p) == Success(fn) && ProgramExpr(cc, i) == Success(inverse)
  }

  lemma RunTwoPrograms(cc: Setting, p: Option<nat>, i: Option<nat>, fn: JExpr, inverse: JExpr, st: State)
    requires ProgramsAre(cc, p, i, fn, inverse)
    ensures RunPushes(cc, [PushProgram(p), PushProgram(i)], st, [Lit(fn), Lit(inverse)])
    ensures Run(cc, [PushProgram(p), PushProgram(i)], st).value.lastHelper == st.lastHelper
  {
    var st1 := PushLit(st, fn);
    RunConcat(cc, [PushProgram(p)], [PushProgram(i)], st);
    RunOne(cc, PushProgram(p), st);
    RunOne(cc, PushProgram(i), st1);
    assert [PushProgram(p)] + [PushProgram(i)] == [PushProgram(p), PushProgram(i)];
  }

  lemma {:induction false} RunSexpr(cc: Setting, s: Sexpr, isSub: bool, p: Option<nat>, i: Option<nat>, fn: JExpr, inverse: JExpr, st: State)
    requires HashInv(st) && HeadFits(s, cc.opts)
    requires ProgramsAre(cc, p, i, fn, inverse)
    ensures RunPushes(cc, OpsSexpr(s, isSub, p, i, cc.opts), st, [Inl(TSexpr(cc, s, isSub, fn, inverse, st.stackSlot))])
    ensures Run(cc, OpsSexpr(s, isSub, p, i, cc.opts), st).value.lastHelper ==
            if Classify(s, isSub, cc.opts).Ambiguous? then Some(CalleePath(s.callee).parts[0]) else st.lastHelper
    decreases s, 1
  {
    hide Run, Step;
    match Classify(s, isSub, cc.opts)
    case Simple => RunSimple(cc, s, isSub, p, i, fn, inverse, st);
    case Ambiguous => RunAmbiguous(cc, s, isSub, p, i, fn, inverse, st);
    case Helper =>
      var o, path := cc.opts, CalleePath(s.callee);
      RunParams(cc, s.params, st);
      var st1 := Run(cc, OpsParams(s.params, o), st).value;
      RunTwoPrograms(cc, p, i, fn, inverse, st1);
      var pp := [PushProgram(p), PushProgram(i)];
      var st2 := Run(cc, pp, st1).value;
      RunHash(cc, s.hash, st2);
      var st3 := Run(cc, OpsHash(s.hash, o), st2).value;
      var es := AllEntries(cc, s.params, st.stackSlot);
      RunPushesConcat(cc, OpsParams(s.params, o), pp, st, es, [Lit(fn), Lit(inverse)]);
      RunPushesConcat(cc, OpsParams(s.params, o) + pp, OpsHash(s.hash, o), st, es + [Lit(fn), Lit(inverse)], HashEntries(cc, s.hash, st.stackSlot));
      RunHelperCall(cc, s, isSub, p, i, fn, inverse, st, st3);
  }

  lemma RunSimple(cc: Setting, s: Sexpr, isSub: bool, p: Option<nat>, i: Option<nat>, fn: JExpr, inverse: JExpr, st: State)
    requires Classify(s, isSub, cc.opts).Simple?
    ensures RunPushes(cc, OpsSexpr(s, isSub, p, i, cc.opts), st, [Inl(TSexpr(cc, s, isSub, fn, inverse, st.stackSlot))])
    ensures Run(cc, OpsSexpr(s, isSub, p, i, cc.opts), st).value.lastHelper == st.lastHelper
  {
    var path := CalleePath(s.callee);
    RunPath(cc, path, false, st);
    var st1 := Run(cc, OpsPath(path, false), st).value;
    RunConcat(cc, OpsPath(path, false), [ResolvePossibleLambda], st);
    RunOne(cc, ResolvePossibleLambda, st1);
    assert Front(st1.inlineStack) == st.inlineStack;
  }

  lemma EmptyHashEntries(cc: Setting, st: State)
    ensures PushEmptyHash(cc, st) == st.(inlineStack := st.inlineStack + HashEntries(cc, NoHash, 0))
  {
    var s, o, e := st.inlineStack, Inl(JObject([])), Lit(JObject([]));
    assert s + [o] + [e] == s + [o, e];
    assert s + [o] + [o] + [e] == s + [o, o, e];
    assert s + [o] + [o] + [o] + [e] == s + [o, o, o, e];
  }

  lemma StepInvokeAmbiguous(cc: Setting, st: State, pre: seq<Entry>, fn: JExpr, inverse: JExpr, nonHelper: Entry, name: string, hc: bool)
    requires st.inlineStack == pre + [Lit(fn), Lit(inverse)] + [nonHelper]
    ensures var jo := JOptions(name, JObject([]), FnOf(fn, inverse), FnOf(inverse, fn));
            Step(cc, InvokeAmbiguous(name, hc), st) ==
            Success(st.(inlineStack := pre + [Inl(AmbiguousCall(name, nonHelper.e, jo, hc))], lastHelper := Some(name),
                        registers := st.registers + {HelperRegister} + (if hc then {OptionsRegister} else {})))
  {
    hide SetupParams, HashEntries, PushEmptyHash, AmbiguousCall, FnOf;
    var below := pre + [Lit(fn), Lit(inverse)];
    assert Front(st.inlineStack) == below && Last(st.inlineStack) == nonHelper;
    var st0 := st.(inlineStack := below);
    EmptyHashEntries(cc, st0);
    SetupNoParams(cc, name, pre, fn, inverse, PushEmptyHash(cc, st0));
  }

  /** The parameters of an opcode that has none, after `emptyHash`. */
  lemma SetupNoParams(cc: Setting, name: string, pre: seq<Entry>, fn: JExpr, inverse: JExpr, st: State)
    requires st.inlineStack == pre + [Lit(fn), Lit(inverse)] + HashEntries(cc, NoHash, 0)
    ensures SetupParams(cc, st, name, 0) ==
            Success((JOptions(name, JObject([]), FnOf(fn, inverse), FnOf(inverse, fn)), [], st.(inlineStack := pre)))
  {
    assert pre + AllEntries(cc, [], 0) == pre;
    assert THash(cc, NoHash, 0) == JObject([]) && TParams(cc, [], 0) == [];
    hide HashEntries, SetupParams, AllEntries, THash, TParams;
    SetupParamsInline(cc, st, name, pre, [], fn, inverse, NoHash, 0);
  }

  lemma RunGetContext(cc: Setting, depth: nat, st: State)
    ensures Run(cc, [GetContext(depth)], st) == Success(st.(lastContext := depth))
    ensures RunPushes(cc, [GetContext(depth)], st, [])
  {
    RunOne(cc, GetContext(depth), st);
    assert st.inlineStack + [] == st.inlineStack;
  }

  lemma RunAmbiguous(cc: Setting, s: Sexpr, isSub: bool, p: Option<nat>, i: Option<nat>, fn: JExpr, inverse: JExpr, st: State)
    requires Classify(s, isSub, cc.opts).Ambiguous?
    requires ProgramsAre(cc, p, i, fn, inverse)
    ensures RunPushes(cc, OpsSexpr(s, isSub, p, i, cc.opts), st, [Inl(TSexpr(cc, s, isSub, fn, inverse, st.stackSlot))])
    ensures Run(cc, OpsSexpr(s, isSub, p, i, cc.opts), st).value.lastHelper == Some(CalleePath(s.callee).parts[0])
  {
    hide Run, Step;
    var path := CalleePath(s.callee);
    var gc, pp := [GetContext(path.depth)], [PushProgram(p), PushProgram(i)];
    var st0 := st.(lastContext := path.depth);
    RunGetContext(cc, path.depth, st);
    RunTwoPrograms(cc, p, i, fn, inverse, st0);
    RunPushesConcat(cc, gc, pp, st, [], [Lit(fn), Lit(inverse)]);
    var st1 := Run(cc, pp, st0).value;
    RunPath(cc, path, false, st1);
    RunPushesConcat(cc, gc + pp, OpsPath(path, false), st, [] + [Lit(fn), Lit(inverse)], [TPath(cc, path, false, st.stackSlot)]);
    RunAmbiguousEnd(cc, s, isSub, p, i, fn, inverse, st);
  }

  lemma RunAmbiguousEnd(cc: Setting, s: Sexpr, isSub: bool, p: Option<nat>, i: Option<nat>, fn: JExpr, inverse: JExpr, st: State)
    requires Classify(s, isSub, cc.opts).Ambiguous?
    requires ProgramsAre(cc, p, i, fn, inverse)
    requires var path := CalleePath(s.callee);
             RunPushes(cc, [GetContext(path.depth)] + [PushProgram(p), PushProgram(i)] + OpsPath(path, false), st,
                       [] + [Lit(fn), Lit(inverse)] + [TPath(cc, path, false, st.stackSlot)])
    ensures RunPushes(cc, OpsSexpr(s, isSub, p, i, cc.opts), st, [Inl(TSexpr(cc, s, isSub, fn, inverse, st.stackSlot))])
    ensures Run(cc, OpsSexpr(s, isSub, p, i, cc.opts), st).value.lastHelper == Some(CalleePath(s.callee).parts[0])
  {
    hide Run, Step, OpsPath, TPath, AmbiguousCall, FnOf;
    var path := CalleePath(s.callee);
    var front := [GetContext(path.depth)] + [PushProgram(p), PushProgram(i)] + OpsPath(path, false);
    var invoke := InvokeAmbiguous(path.parts[0], p.Some? || i.Some?);
    var st2 := Run(cc, front, st).value;
    assert OpsSexpr(s, isSub, p, i, cc.opts) == front + [invoke] by {
      assert [GetContext(path.depth)] + [PushProgram(p), PushProgram(i)] == [GetContext(path.depth), PushProgram(p), PushProgram(i)];
    }
    RunConcat(cc, front, [invoke], st);
    var top := TPath(cc, path, false, st.stackSlot);
    assert st2.inlineStack == st.inlineStack + [Lit(fn), Lit(inverse)] + [top];
    StepInvokeAmbiguous(cc, st2, st.inlineStack, fn, inverse, top, path.parts[0], p.Some? || i.Some?);
    RunOne(cc, invoke, st2);
  }

  lemma StepInvokeKnown(cc: Setting, st: State, pre: seq<Entry>, es: seq<Expr>, fn: JExpr, inverse: JExpr, h: Hash, slot: nat, name: string)
    requires GoodOptions(cc.opts) || es == []
    requires st.inlineStack == pre + AllEntries(cc, es, slot) + [Lit(fn), Lit(inverse)] + HashEntries(cc, h, slot)
    ensures var jo := JOptions(name, THash(cc, h, slot), FnOf(fn, inverse), FnOf(inverse, fn));
            Step(cc, InvokeKnownHelper(|es|, name), st) ==
            Success(st.(inlineStack := pre + [Inl(JCall(JHelperNamed(name), TParams(cc, es, slot), Inline(jo)))]))
  {
    hide SetupParams, AllEntries, HashEntries, THash, TParams;
    SetupParamsInline(cc, st, name, pre, es, fn, inverse, h, slot);
  }

  lemma StepInvokeHelper(cc: Setting, st: State, pre: seq<Entry>, es: seq<Expr>, fn: JExpr, inverse: JExpr, h: Hash, slot: nat,
                         nonHelper: Entry, name: string, isSimple: bool)
    requires GoodOptions(cc.opts) || es == []
    requires st.inlineStack == pre + AllEntries(cc, es, slot) + [Lit(fn), Lit(inverse)] + HashEntries(cc, h, slot) + [nonHelper]
    ensures var jo := JOptions(name, THash(cc, h, slot), FnOf(fn, inverse), FnOf(inverse, fn));
            Step(cc, InvokeHelper(|es|, name, isSimple), st) ==
            Success(st.(inlineStack := pre + [Inl(JCall(HelperLookup(name, nonHelper.e, isSimple), TParams(cc, es, slot), Inline(jo)))]))
  {
    hide SetupParams, AllEntries, HashEntries, THash, TParams;
    var below := pre + AllEntries(cc, es, slot) + [Lit(fn), Lit(inverse)] + HashEntries(cc, h, slot);
    assert Front(st.inlineStack) == below && Last(st.inlineStack) == nonHelper;
    SetupParamsInline(cc, st.(inlineStack := below), name, pre, es, fn, inverse, h, slot);
  }

  /** The opcodes after the hash of a helper call. */
  lemma RunHelperCall(cc: Setting, s: Sexpr, isSub: bool, p: Option<nat>, i: Option<nat>, fn: JExpr, inverse: JExpr, st: State, st3: State)
    requires GoodOptions(cc.opts) || Bare(s)
    requires Classify(s, isSub, cc.opts).Helper?
    requires var o := cc.opts;
             Run(cc, OpsParams(s.params, o) + [PushProgram(p), PushProgram(i)] + OpsHash(s.hash, o), st) == Success(st3)
    requires st3.lastHelper == st.lastHelper
    requires Pushed(st, AllEntries(cc, s.params, st.stackSlot) + [Lit(fn), Lit(inverse)] + HashEntries(cc, s.hash, st.stackSlot), st3)
    ensures RunPushes(cc, OpsSexpr(s, isSub, p, i, cc.opts), st, [Inl(TSexpr(cc, s, isSub, fn, inverse, st.stackSlot))])
    ensures Run(cc, OpsSexpr(s, isSub, p, i, cc.opts), st).value.lastHelper == st.lastHelper
  {
    hide Run, Step, OpsParams, OpsHash, AllEntries, HashEntries, OpsPath, TPath, TParams, THash, HelperLookup, FnOf;
    var o, path, slot := cc.opts, CalleePath(s.callee), st.stackSlot;
    var front := OpsParams(s.params, o) + [PushProgram(p), PushProgram(i)] + OpsHash(s.hash, o);
    assert st3.inlineStack == st.inlineStack + AllEntries(cc, s.params, slot) + [Lit(fn), Lit(inverse)] + HashEntries(cc, s.hash, slot);
    if KnownHelper(path, o) {
      var op := InvokeKnownHelper(|s.params|, path.parts[0]);
      RunConcat(cc, front, [op], st);
      RunKnown(cc, s, fn, inverse, st.inlineStack, st3);
    } else {
      RunHelperLookup(cc, s, fn, inverse, st.inlineStack, st3);
      RunConcat(cc, front, OpsPath(path, true) + [InvokeHelper(|s.params|, path.original, SimpleId(path))], st);
    }
  }

  lemma RunKnown(cc: Setting, s: Sexpr, fn: JExpr, inverse: JExpr, pre: seq<Entry>, st: State)
    requires (GoodOptions(cc.opts) || Bare(s)) && KnownHelper(CalleePath(s.callee), cc.opts)
    requires st.inlineStack == pre + AllEntries(cc, s.params, st.stackSlot) + [Lit(fn), Lit(inverse)] + HashEntries(cc, s.hash, st.stackSlot)
    ensures var name := CalleePath(s.callee).parts[0];
            var jo := JOptions(name, THash(cc, s.hash, st.stackSlot), FnOf(fn, inverse), FnOf(inverse, fn));
            Run(cc, [InvokeKnownHelper(|s.params|, name)], st) ==
            Success(st.(inlineStack := pre + [Inl(JCall(JHelperNamed(name), TParams(cc, s.params, st.stackSlot), Inline(jo)))]))
  {
    hide Run, Step, AllEntries, HashEntries;
    var name := CalleePath(s.callee).parts[0];
    RunOne(cc, InvokeKnownHelper(|s.params|, name), st);
    StepInvokeKnown(cc, st, pre, s.params, fn, inverse, s.hash, st.stackSlot, name);
  }

  lemma RunHelperLookup(cc: Setting, s: Sexpr, fn: JExpr, inverse: JExpr, pre: seq<Entry>, st: State)
    requires GoodOptions(cc.opts) || Bare(s)
    requires st.inlineStack == pre + AllEntries(cc, s.params, st.stackSlot) + [Lit(fn), Lit(inverse)] + HashEntries(cc, s.hash, st.stackSlot)
    ensures var path := CalleePath(s.callee);
            var r := Run(cc, OpsPath(path, true) + [InvokeHelper(|s.params|, path.original, SimpleId(path))], st);
            var jo := JOptions(path.original, THash(cc, s.hash, st.stackSlot), FnOf(fn, inverse), FnOf(inverse, fn));
            var call := JCall(HelperLookup(path.original, TPath(cc, path, true, st.stackSlot).e, SimpleId(path)), TParams(cc, s.params, st.stackSlot), Inline(jo));
            r.Success? && r.value == st.(inlineStack := pre + [Inl(call)], lastContext := r.value.lastContext, stackVars := r.value.stackVars,
                                       registers := r.value.registers)
  {
    hide Run, Step;
    var path := CalleePath(s.callee);
    var op := InvokeHelper(|s.params|, path.original, SimpleId(path));
    RunPath(cc, path, true, st);
    var st1 := Run(cc, OpsPath(path, true), st).value;
    RunConcat(cc, OpsPath(path, true), [op], st);
    RunOne(cc, op, st1);
    StepInvokeHelper(cc, st1, pre, s.params, fn, inverse, s.hash, st.stackSlot, TPath(cc, path, true, st.stackSlot), path.original, SimpleId(path));
  }
}

/** `compileChildren`: the table of programs shared by one template.  Every distinct child gets its own index,
    and a program that is recursively the same as an earlier one reuses that one's index. */
module HandlebarsTable {
  import opened Wrappers
  import opened HandlebarsAst
  import opened HandlebarsOpcodes
  import opened HandlebarsTarget
  import opened HandlebarsMachine
  import opened HandlebarsExprs
  import opened HandlebarsEnvironments
  import opened HandlebarsStmts
  import opened HandlebarsProgram

  /** The function emitted for a program; `refs` are the indexes its code mentions, by guid. */
  datatype Compiled = Compiled(refs: seq<ProgRef>, body: seq<BodyStmt>)

  /** The arrays `programs` and `environments`.  Placeholders and holes are the indexes below `length` with no entry. */
  datatype Table = Table(length: nat, programs: map<nat, Compiled>, environments: map<nat, Environment>)

  const EMPTY_TABLE := Table(0, map[], map[])

  /** The first index from `i` on whose environment equals `child`. */
  function MatchFrom(t: Table, child: Environment, i: nat): Result<Option<nat>>
    decreases t.length - i
  {
    if i >= t.length then Success(None)
    else if i !in t.environments then MatchFrom(t, child, i + 1)
    else
      match Equals(t.environments[i], child)
      case Same => Success(Some(i))
      case Different => MatchFrom(t, child, i + 1)
      case MissingChild => Failure(ChildMissing)
  }

  /** Storing beyond the end of an array makes it longer. */
  function Store(t: Table, i: nat, c: Compiled, e: Environment): Table {
    Table(Max(t.length, i + 1), t.programs[i := c], t.environments[i := e])
  }

  function CompileEnv(e: Environment, o: Options, t: Table): Result<(Compiled, Table)>
    decreases e, 1
  {
    var (ix, t1) :- CompileChildren(e.children, o, t);
    var refs := Refs(ix, e.useDepths);
    var body :- CodeOf(Setting(e.isSimple, e.useDepths, refs, o), e.ops);
    Success((Compiled(refs, body), t1))
  }

  function Refs(ix: seq<nat>, passDepths: bool): (refs: seq<ProgRef>)
    ensures |refs| == |ix|
    ensures forall k :: 0 <= k < |ix| ==> refs[k] == ProgRef(ix[k], passDepths)
  {
    if ix == [] then [] else [ProgRef(ix[0], passDepths)] + Refs(ix[1..], passDepths)
  }

  function CompileChild(e: Environment, o: Options, t: Table): Result<(nat, Table)>
    decreases e, 2
  {
    var found :- MatchFrom(t, e, 0);
    match found
    case Some(i) => Success((i, t))
    case None =>
      // the placeholder takes one place; the program takes the next, which nested programs may fill with placeholders first
      var i := t.length + 1;
      var (c, t1) :- CompileEnv(e, o, t.(length := i));
      Success((i, Store(t1, i, c, e)))
  }

  function CompileChildren(es: seq<Environment>, o: Options, t: Table): Result<(seq<nat>, Table)>
    decreases es, 0
  {
    if es == [] then Success(([], t))
    else
      var (i, t1) :- CompileChild(es[0], o, t);
      var (ix, t2) :- CompileChildren(es[1..], o, t1);
      Success(([i] + ix, t2))
  }

  // ----- the table invariant

  /** Environments whose opcodes, and whose children's, compile whatever indexes the children get. */
  ghost predicate Compilable(e: Environment, o: Options)
    decreases e, 1
  {
    GoodEnv(e) && Compilables(e.children, o) &&
    forall refs: seq<ProgRef> :: |refs| == |e.children| ==> CodeOf(Setting(e.isSimple, e.useDepths, refs, o), e.ops).Success?
  }

  ghost predicate Compilables(es: seq<Environment>, o: Options)
    decreases es, 0
  {
    es == [] || (Compilable(es[0], o) && Compilables(es[1..], o))
  }

  /** Each reference leads to the code of a program recursively the same as the child it stands for. */
  ghost predicate RefsOk(t: Table, refs: seq<ProgRef>, children: seq<Environment>, passDepths: bool) {
    |refs| == |children| &&
    forall g :: 0 <= g < |refs| ==>
      refs[g].index in t.environments && SameCode(t.environments[refs[g].index], children[g]) && refs[g].passDepths == passDepths
  }

  /** `c` is the compiled form of `e`, with children found in `t`. */
  ghost predicate CodeFor(t: Table, o: Options, e: Environment, c: Compiled) {
    GoodEnv(e) && RefsOk(t, c.refs, e.children, e.useDepths) &&
    CodeOf(Setting(e.isSimple, e.useDepths, c.refs, o), e.ops) == Success(c.body)
  }

  ghost predicate TableOk(t: Table, o: Options) {
    t.programs.Keys == t.environments.Keys &&
    (forall i :: i in t.environments ==> i < t.length) &&
    (forall i :: i in t.environments ==> CodeFor(t, o, t.environments[i], t.programs[i]))
  }

  /** Entries are never overwritten, and new ones lie beyond the old length. */
  ghost predicate Extends(t: Table, t': Table) {
    t.length <= t'.length &&
    (forall i :: i in t.environments ==> i in t'.environments && t'.environments[i] == t.environments[i]) &&
    (forall i :: i in t.programs ==> i in t'.programs && t'.programs[i] == t.programs[i]) &&
    (forall i :: i in t'.environments && i !in t.environments ==> i > t.length) &&
    (forall i :: i in t'.programs && i !in t.programs ==> i > t.length)
  }

  lemma {:induction false} MatchFromOk(t: Table, o: Options, child: Environment, i: nat)
    requires TableOk(t, o) && GoodEnv(child)
    ensures var r := MatchFrom(t, child, i);
            r.Success? && (r.value.Some? ==> r.value.value in t.environments && SameCode(t.environments[r.value.value], child)) &&
            (r.value.None? ==> forall j :: i <= j && j in t.environments ==> !SameCode(t.environments[j], child))
    decreases t.length - i
  {
    hide CodeOf, SameCode, Equals, GoodEnv;
    if i < t.length {
      if i in t.environments { EqualsDecides(t.environments[i], child); }
      MatchFromOk(t, o, child, i + 1);
    }
  }

  lemma {:induction false} CompileEnvOk(e: Environment, o: Options, t: Table)
    requires TableOk(t, o) && GoodEnv(e)
    ensures Compilable(e, o) ==> CompileEnv(e, o, t).Success?
    ensures var r := CompileEnv(e, o, t);
            r.Success? ==> TableOk(r.value.1, o) && Extends(t, r.value.1) && CodeFor(r.value.1, o, e, r.value.0)
    decreases e, 1
  {
    hide CodeOf, SameCode, Equals, TableOk, Extends;
    CompileChildrenOk(e.children, o, t);
  }

  lemma {:induction false} CompileChildOk(e: Environment, o: Options, t: Table)
    requires TableOk(t, o) && GoodEnv(e)
    ensures Compilable(e, o) ==> CompileChild(e, o, t).Success?
    ensures var r := CompileChild(e, o, t);
            r.Success? ==> TableOk(r.value.1, o) && Extends(t, r.value.1) && IndexOk(r.value.1, r.value.0, e)
    decreases e, 2
  {
    hide CodeFor, SameCode, TableOk, Extends, Store, CompileEnv, Compilable, GoodEnv;
    MatchFromOk(t, o, e, 0);
    if MatchFrom(t, e, 0).value.None? {
      var i := t.length + 1;
      LongerOk(t, o, i);
      CompileEnvOk(e, o, t.(length := i));
      if CompileEnv(e, o, t.(length := i)).Success? {
        var (c, t1) := CompileEnv(e, o, t.(length := i)).value;
        StoreOk(t, t1, o, c, e);
      }
    } else {
      ExtendsRefl(t);
    }
  }

  lemma ExtendsRefl(t: Table)
    ensures Extends(t, t)
  {
  }

  lemma ExtendsTrans(a: Table, b: Table, c: Table)
    requires Extends(a, b) && Extends(b, c)
    ensures Extends(a, c)
  {
  }

  /** Code stays valid in a table with more entries. */
  lemma KeepCode(t: Table, t': Table, o: Options, e: Environment, c: Compiled)
    requires CodeFor(t, o, e, c)
    requires forall i :: i in t.environments ==> i in t'.environments && t'.environments[i] == t.environments[i]
    ensures CodeFor(t', o, e, c)
  {
    hide CodeOf, SameCode, GoodEnv;
  }

  lemma LongerOk(t: Table, o: Options, n: nat)
    requires TableOk(t, o) && t.length <= n
    ensures TableOk(t.(length := n), o)
  {
    hide CodeFor;
    forall j | j in t.environments ensures CodeFor(t.(length := n), o, t.environments[j], t.programs[j]) {
      KeepCode(t, t.(length := n), o, t.environments[j], t.programs[j]);
    }
  }

  /** The reserved index is still free when its program has been compiled, and storing there keeps the table in order. */
  lemma StoreOk(t: Table, t1: Table, o: Options, c: Compiled, e: Environment)
    requires TableOk(t, o) && TableOk(t1, o) && CodeFor(t1, o, e, c)
    requires Extends(t.(length := t.length + 1), t1)
    ensures t.length + 1 !in t1.environments
    ensures var t' := Store(t1, t.length + 1, c, e);
            TableOk(t', o) && Extends(t, t') && IndexOk(t', t.length + 1, e)
  {
    hide CodeFor, SameCode;
    SameCodeRefl(e);
    var t' := Store(t1, t.length + 1, c, e);
    forall j | j in t'.environments ensures CodeFor(t', o, t'.environments[j], t'.programs[j]) {
      KeepCode(t1, t', o, t'.environments[j], t'.programs[j]);
    }
  }

  /** Index `i` holds a program that is recursively the same as `e`. */
  ghost predicate IndexOk(t: Table, i: nat, e: Environment) {
    i in t.environments && SameCode(t.environments[i], e)
  }

  ghost predicate IndexesOk(t: Table, ix: seq<nat>, es: seq<Environment>) {
    |ix| == |es| && forall g :: 0 <= g < |ix| ==> IndexOk(t, ix[g], es[g])
  }

  lemma RefsFromIndexes(t: Table, ix: seq<nat>, es: seq<Environment>, passDepths: bool)
    requires IndexesOk(t, ix, es)
    ensures RefsOk(t, Refs(ix, passDepths), es, passDepths)
  {
    hide SameCode;
  }

  lemma {:induction false} CompileChildrenOk(es: seq<Environment>, o: Options, t: Table)
    requires TableOk(t, o) && GoodEnvs(es)
    ensures Compilables(es, o) ==> CompileChildren(es, o, t).Success?
    ensures var r := CompileChildren(es, o, t);
            r.Success? ==>
              TableOk(r.value.1, o) && Extends(t, r.value.1) && IndexesOk(r.value.1, r.value.0, es) &&
              forall b :: RefsOk(r.value.1, Refs(r.value.0, b), es, b)
    decreases es, 0
  {
    hide CodeFor, SameCode, TableOk, CompileChild, Refs, RefsOk, Compilable, GoodEnv;
    if es == [] {
      ExtendsRefl(t);
    } else {
      CompileChildOk(es[0], o, t);
      if CompileChild(es[0], o, t).Success? {
        var t1 := CompileChild(es[0], o, t).value.1;
        CompileChildrenOk(es[1..], o, t1);
        if CompileChildren(es[1..], o, t1).Success? { ExtendsTrans(t, t1, CompileChildren(es[1..], o, t1).value.1); }
      }
    }
    if CompileChildren(es, o, t).Success? {
      var (ix, t2) := CompileChildren(es, o, t).value;
      forall b ensures RefsOk(t2, Refs(ix, b), es, b) { RefsFromIndexes(t2, ix, es, b); }
    }
  }

  // ----- distinct programs have distinct slots

  function Size(e: Environment): nat
    decreases e, 1
  {
    1 + Sizes(e.children)
  }

  function Sizes(es: seq<Environment>): nat
    decreases es, 0
  {
    if es == [] then 0 else Size(es[0]) + Sizes(es[1..])
  }

  lemma {:induction false} SameSize(a: Environment, b: Environment)
    requires SameCode(a, b)
    ensures Size(a) == Size(b) && SameCode(b, a)
    decreases a, 1
  {
    SameSizes(a.children, b.children);
  }

  lemma {:induction false} SameSizes(cs: seq<Environment>, ds: seq<Environment>)
    requires SameCodes(cs, ds)
    ensures Sizes(cs) == Sizes(ds) && SameCodes(ds, cs)
    decreases cs, 0
  {
    if cs != [] {
      SameSize(cs[0], ds[0]);
      SameSizes(cs[1..], ds[1..]);
    }
  }

  /** No two slots hold programs that are recursively the same. */
  ghost predicate NoDuplicates(t: Table) {
    forall i, j :: i in t.environments && j in t.environments && i != j ==> !SameCode(t.environments[i], t.environments[j])
  }

  /** The programs added from `t` to `t'` are no larger than `n`. */
  ghost predicate AddsUpTo(t: Table, t': Table, n: nat) {
    forall i :: i in t'.environments && i !in t.environments ==> Size(t'.environments[i]) <= n
  }

  lemma {:induction false} EnvNoDuplicates(e: Environment, o: Options, t: Table)
    requires TableOk(t, o) && NoDuplicates(t) && GoodEnv(e) && CompileEnv(e, o, t).Success?
    ensures var t' := CompileEnv(e, o, t).value.1; NoDuplicates(t') && AddsUpTo(t, t', Size(e) - 1)
    decreases e, 1
  {
    hide CodeFor, CodeOf, SameCode, TableOk, NoDuplicates, AddsUpTo;
    ChildrenNoDuplicates(e.children, o, t);
  }

  lemma {:induction false} ChildNoDuplicates(e: Environment, o: Options, t: Table)
    requires TableOk(t, o) && NoDuplicates(t) && GoodEnv(e) && CompileChild(e, o, t).Success?
    ensures var t' := CompileChild(e, o, t).value.1; NoDuplicates(t') && AddsUpTo(t, t', Size(e))
    decreases e, 2
  {
    hide CodeFor, SameCode, TableOk, CompileEnv, GoodEnv;
    CompileChildOk(e, o, t);
    MatchFromOk(t, o, e, 0);
    if MatchFrom(t, e, 0).value.None? {
      var t0 := t.(length := t.length + 1);
      LongerOk(t, o, t.length + 1);
      CompileEnvOk(e, o, t0);
      EnvNoDuplicates(e, o, t0);
      var (c, t1) := CompileEnv(e, o, t0).value;
      StoreNoDuplicates(t, t1, o, c, e);
    }
  }

  lemma StoreNoDuplicates(t: Table, t1: Table, o: Options, c: Compiled, e: Environment)
    requires NoDuplicates(t1) && AddsUpTo(t, t1, Size(e) - 1)
    requires t.length + 1 !in t1.environments
    requires forall j :: j in t.environments ==> !SameCode(t.environments[j], e)
    requires Extends(t.(length := t.length + 1), t1)
    ensures var t' := Store(t1, t.length + 1, c, e); NoDuplicates(t') && AddsUpTo(t, t', Size(e))
  {
    hide SameCode, Size, NoDuplicates, AddsUpTo;
    forall j | j in t1.environments
      ensures !SameCode(t1.environments[j], e) && !SameCode(e, t1.environments[j])
    {
      NotSame(t, t1, j, e);
    }
    OneMore(t1, t.length + 1, c, e);
    SizesUpTo(t, t1, t.length + 1, c, e);
  }

  lemma OneMore(t: Table, i: nat, c: Compiled, e: Environment)
    requires NoDuplicates(t) && i !in t.environments
    requires forall j :: j in t.environments ==> !SameCode(t.environments[j], e) && !SameCode(e, t.environments[j])
    ensures NoDuplicates(Store(t, i, c, e))
  {
    hide SameCode;
  }

  lemma SizesUpTo(t: Table, t1: Table, i: nat, c: Compiled, e: Environment)
    requires AddsUpTo(t, t1, Size(e) - 1)
    ensures AddsUpTo(t, Store(t1, i, c, e), Size(e))
  {
  }

  lemma NotSame(t: Table, t1: Table, j: nat, e: Environment)
    requires AddsUpTo(t, t1, Size(e) - 1)
    requires forall j :: j in t.environments ==> !SameCode(t.environments[j], e)
    requires Extends(t.(length := t.length + 1), t1)
    requires j in t1.environments
    ensures !SameCode(t1.environments[j], e) && !SameCode(e, t1.environments[j])
  {
    var x := t1.environments[j];
    if SameCode(x, e) { SameSize(x, e); }
    if SameCode(e, x) { SameSize(e, x); }
  }

  lemma {:induction false} ChildrenNoDuplicates(es: seq<Environment>, o: Options, t: Table)
    requires TableOk(t, o) && NoDuplicates(t) && GoodEnvs(es) && CompileChildren(es, o, t).Success?
    ensures var t' := CompileChildren(es, o, t).value.1; NoDuplicates(t') && AddsUpTo(t, t', Sizes(es))
    decreases es, 0
  {
    hide CodeFor, SameCode, TableOk, CompileChild, NoDuplicates, Size, GoodEnv;
    CompileChildrenOk(es, o, t);
    if es != [] {
      CompileChildOk(es[0], o, t);
      ChildNoDuplicates(es[0], o, t);
      var t1 := CompileChild(es[0], o, t).value.1;
      CompileChildrenOk(es[1..], o, t1);
      ChildrenNoDuplicates(es[1..], o, t1);
    }
  }

  /** Two programs of a template are given the same index exactly when they are recursively the same. */
  lemma SharedExactlyWhenSame(t: Table, o: Options, i: nat, j: nat, a: Environment, b: Environment)
    requires TableOk(t, o) && NoDuplicates(t)
    requires i in t.environments && SameCode(t.environments[i], a)
    requires j in t.environments && SameCode(t.environments[j], b)
    ensures i == j <==> SameCode(a, b)
  {
    SameSize(t.environments[i], a);
    SameSize(t.environments[j], b);
    if i == j {
      SameCodeTrans(a, t.environments[i], b);
    } else if SameCode(a, b) {
      SameCodeTrans(t.environments[i], a, b);
      SameCodeTrans(t.environments[i], b, t.environments[j]);
    }
  }
}

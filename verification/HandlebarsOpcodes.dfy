/** `Compiler`: from the syntax tree to opcodes. */
module HandlebarsOpcodes {
  import opened Wrappers
  import opened HandlebarsAst

  datatype Literal = StrLit(text: string) | NumLit(text: string) | BoolLit(b: bool) | UndefinedLit | NullLit

  datatype ParamKind = PathKind | StringKind | NumberKind | BooleanKind | UndefinedKind | NullKind | SubKind

  datatype Op =
    | GetContext(depth: nat)
    | PushContext
    | LookupOnContext(parts: seq<string>, falsy: bool, scoped: bool)
    | LookupData(depth: nat, parts: seq<string>)
    | PushString(text: string)
    | PushLiteral(lit: Literal)
    | PushProgram(guid: Option<nat>)
    | EmptyHash
    | PushHash
    | PopHash
    | AssignToHash(key: string)
    | ResolvePossibleLambda
    | InvokeHelper(paramSize: nat, name: string, isSimple: bool)
    | InvokeKnownHelper(paramSize: nat, name: string)
    | InvokeAmbiguous(name: string, helperCall: bool)
    | BlockValue(name: string)
    | AmbiguousBlockValue
    | AppendContent(text: string)
    | AppendValue
    | AppendEscaped
    | PushId(kind: ParamKind, text: string)
    | PushStringParam(value: Literal, kind: ParamKind)

  /** A compiled program: its opcodes and child programs; `isSimple` is a body of exactly one statement. */
  datatype Environment = Environment(ops: seq<Op>, children: seq<Environment>, isSimple: bool, useDepths: bool)

  function KindOf(e: Expr): ParamKind {
    match e
    case PathE(_) => PathKind
    case StringE(_) => StringKind
    case NumberE(_) => NumberKind
    case BooleanE(_) => BooleanKind
    case UndefinedE => UndefinedKind
    case NullE => NullKind
    case SubE(_) => SubKind
  }

  // ----- the text forms of parameters used by `trackIds` and `stringParams`

  function StripDots(s: string): string
    decreases |s|
  {
    if |s| >= 2 && s[..2] == "./" then StripDots(s[2..])
    else if |s| >= 3 && s[..3] == "../" then StripDots(s[3..])
    else s
  }

  function SlashToDot(s: string): string
    decreases |s|
  {
    if s == "" then "" else [if s[0] == '/' then '.' else s[0]] + SlashToDot(s[1..])
  }

  function IdText(e: Expr): string {
    match e
    case PathE(p) =>
      var t := if |p.original| >= 2 && p.original[..2] == "./" then p.original[2..] else p.original;
      if t == "." then "" else t
    case _ => ""
  }

  function StringParamValue(e: Expr): Literal {
    match e
    case PathE(p) => StrLit(SlashToDot(StripDots(p.original)))
    case StringE(t) => StrLit(SlashToDot(StripDots(t)))
    case NumberE(t) => NumLit(t)
    case BooleanE(b) => BoolLit(b)
    case _ => StrLit("")
  }

  /** Steps `./` and `../`, as written. */
  function Steps(ups: seq<bool>): string { if ups == [] then "" else (if ups[0] then "../" else "./") + Steps(ups[1..]) }

  /** With `stringParams` a path or a string is passed without the steps it begins with, and with a dot for every slash. */
  lemma {:induction false} StringParamIs(ups: seq<bool>, rest: string, k: nat)
    requires !("./" <= rest) && !("../" <= rest) && k < |rest|
    ensures var t := StringParamValue(StringE(Steps(ups) + rest));
            t.StrLit? && |t.text| == |rest| && t.text[k] == if rest[k] == '/' then '.' else rest[k]
  {
    StepsStripped(ups, rest);
    SlashAt(rest, k);
  }

  lemma {:induction false} StepsStripped(ups: seq<bool>, rest: string)
    requires !("./" <= rest) && !("../" <= rest)
    ensures StripDots(Steps(ups) + rest) == rest
    decreases |ups|
  {
    if ups == [] {
      assert Steps(ups) + rest == rest;
      assert |rest| >= 2 ==> rest[..2] != "./" && (|rest| >= 3 ==> rest[..3] != "../");
    } else {
      var more := Steps(ups[1..]) + rest;
      StepsStripped(ups[1..], rest);
      StepStripped(ups[0], more);
      assert Steps(ups) + rest == (if ups[0] then "../" else "./") + more;
    }
  }

  lemma StepStripped(up: bool, more: string)
    ensures StripDots((if up then "../" else "./") + more) == StripDots(more)
  {
    if up {
      var s := "../" + more;
      assert s[..3] == "../" && s[..2] == ".." && s[3..] == more;
    } else {
      var s := "./" + more;
      assert s[..2] == "./" && s[2..] == more;
    }
  }

  lemma {:induction false} SlashAt(s: string, k: nat)
    requires k < |s|
    ensures |SlashToDot(s)| == |s| && SlashToDot(s)[k] == if s[k] == '/' then '.' else s[k]
  {
    if k > 0 { SlashAt(s[1..], k - 1); } else if |s| > 1 { SlashAt(s[1..], 0); }
  }

  /** With `trackIds` a path is passed as it is written, but for a `./` before it; the context itself is the empty text. */
  lemma IdTextIs(path: Path, t: string)
    requires t != "." && !("./" <= t)
    ensures path.original == t || path.original == "./" + t ==> IdText(PathE(path)) == t
    ensures path.original == "." || path.original == "./." ==> IdText(PathE(path)) == ""
  {
    if path.original == "./" + t { assert path.original[..2] == "./" && path.original[2..] == t; }
    if |t| >= 2 { assert t[..2] != "./"; }
  }

  function PathDepth(e: Expr): nat {
    match e
    case PathE(p) => p.depth
    case _ => 0
  }

  // ----- opcodes of each node

  function OpsPath(p: Path, falsy: bool): seq<Op> {
    [GetContext(p.depth)] +
    (if NoName(p) then [PushContext]
     else if p.data then [LookupData(p.depth, p.parts)]
     else [LookupOnContext(p.parts, falsy, ScopedId(p))])
  }

  function OpsExpr(e: Expr, o: Options): seq<Op>
    decreases e, 0
  {
    match e
    case PathE(p) => OpsPath(p, false)
    case StringE(t) => [PushString(t)]
    case NumberE(t) => [PushLiteral(NumLit(t))]
    case BooleanE(b) => [PushLiteral(BoolLit(b))]
    case UndefinedE => [PushLiteral(UndefinedLit)]
    case NullE => [PushLiteral(NullLit)]
    case SubE(s) => OpsSexpr(s, true, None, None, o)
  }

  function OpsParam(e: Expr, o: Options): seq<Op>
    decreases e, 1
  {
    if o.stringParams then
      [GetContext(PathDepth(e)), PushStringParam(StringParamValue(e), KindOf(e))] + (if e.SubE? then OpsExpr(e, o) else [])
    else
      (if o.trackIds then [PushId(KindOf(e), IdText(e))] else []) + OpsExpr(e, o)
  }

  function OpsParams(es: seq<Expr>, o: Options): seq<Op>
    decreases es, 0
  {
    if es == [] then [] else OpsParam(es[0], o) + OpsParams(es[1..], o)
  }

  function OpsPairValues(ps: seq<Pair>, o: Options): seq<Op>
    decreases ps, 0
  {
    if ps == [] then [] else OpsParam(ps[0].value, o) + OpsPairValues(ps[1..], o)
  }

  function OpsAssigns(ps: seq<Pair>): seq<Op> {
    if ps == [] then [] else [AssignToHash(ps[|ps| - 1].key)] + OpsAssigns(ps[..|ps| - 1])
  }

  function OpsHash(h: Hash, o: Options): seq<Op>
    decreases h, 1
  {
    match h
    case NoHash => [EmptyHash]
    case Hash(ps) => [PushHash] + OpsPairValues(ps, o) + OpsAssigns(ps) + [PopHash]
  }

  function OpsSexpr(s: Sexpr, isSub: bool, p: Option<nat>, i: Option<nat>, o: Options): seq<Op>
    decreases s, 1
  {
    var path := CalleePath(s.callee);
    match Classify(s, isSub, o)
    case Simple => OpsPath(path, false) + [ResolvePossibleLambda]
    case Ambiguous =>
      [GetContext(path.depth), PushProgram(p), PushProgram(i)] + OpsPath(path, false) +
      [InvokeAmbiguous(path.parts[0], p.Some? || i.Some?)]
    case Helper =>
      OpsParams(s.params, o) + [PushProgram(p), PushProgram(i)] + OpsHash(s.hash, o) +
      (if KnownHelper(path, o) then [InvokeKnownHelper(|s.params|, path.parts[0])]
       else OpsPath(path, true) + [InvokeHelper(|s.params|, path.original, SimpleId(path))])
  }

  function Slots(p: Option<Program>): nat { if p.None? then 0 else 1 }

  function Guid(p: Option<Program>, g: nat): Option<nat> { if p.None? then None else Some(g) }

  /** Opcodes of a statement whose child programs are numbered from `g`. */
  function OpsStmt(st: Stmt, g: nat, o: Options): seq<Op> {
    match st
    case Content(t) => if t == "" then [] else [AppendContent(t)]
    case Comment => []
    case Mustache(s, escaped) =>
      OpsSexpr(s, false, None, None, o) + [if escaped && !o.noEscape then AppendEscaped else AppendValue]
    case Block(s, p, i) =>
      var gp, gi := Guid(p, g), Guid(i, g + Slots(p));
      var path := CalleePath(s.callee);
      OpsSexpr(s, false, gp, gi, o) +
      (match Classify(s, false, o)
       case Helper => []
       case Simple => [PushProgram(gp), PushProgram(gi), EmptyHash, BlockValue(path.original)]
       case Ambiguous => [PushProgram(gp), PushProgram(gi), EmptyHash, AmbiguousBlockValue]) +
      [AppendValue]
  }

  function StmtSlots(st: Stmt): nat {
    match st
    case Block(_, p, i) => Slots(p) + Slots(i)
    case _ => 0
  }

  function OpsBody(body: seq<Stmt>, g: nat, o: Options): seq<Op>
    decreases |body|
  {
    if body == [] then [] else OpsStmt(body[0], g, o) + OpsBody(body[1..], g + StmtSlots(body[0]), o)
  }

  // ----- child programs, in guid order

  function OptSeq(p: Option<Program>): seq<Program> { if p.None? then [] else [p.value] }

  function StmtPrograms(st: Stmt): seq<Program> {
    match st
    case Block(_, p, i) => OptSeq(p) + OptSeq(i)
    case _ => []
  }

  function BodyPrograms(body: seq<Stmt>): seq<Program> {
    if body == [] then [] else StmtPrograms(body[0]) + BodyPrograms(body[1..])
  }

  // ----- use of outer contexts

  predicate UsesExpr(e: Expr, o: Options)
    decreases e, 0
  {
    match e
    case PathE(p) => p.depth != 0
    case SubE(s) => UsesSexpr(s, true, o)
    case _ => false
  }

  /** The callee of a known helper is never looked up as a path. */
  predicate UsesSexpr(s: Sexpr, isSub: bool, o: Options)
    decreases s, 1
  {
    (CalleePath(s.callee).depth != 0 && !(Classify(s, isSub, o).Helper? && KnownHelper(CalleePath(s.callee), o))) ||
    (Classify(s, isSub, o).Helper? && (AnyExpr(s.params, o) || (s.hash.Hash? && AnyPair(s.hash.pairs, o))))
  }

  predicate AnyExpr(es: seq<Expr>, o: Options)
    decreases es, 0
  {
    es != [] && (UsesExpr(es[0], o) || AnyExpr(es[1..], o))
  }

  predicate AnyPair(ps: seq<Pair>, o: Options)
    decreases ps, 0
  {
    ps != [] && (UsesExpr(ps[0].value, o) || AnyPair(ps[1..], o))
  }

  predicate UsesProgram(p: Program, o: Options)
    decreases p, 2
  {
    UsesBody(p.body, o)
  }

  predicate UsesBody(body: seq<Stmt>, o: Options)
    decreases body, 1
  {
    body != [] && (UsesStmt(body[0], o) || UsesBody(body[1..], o))
  }

  predicate UsesStmt(st: Stmt, o: Options)
    decreases st, 0
  {
    match st
    case Mustache(s, _) => UsesSexpr(s, false, o)
    case Block(s, p, i) => UsesSexpr(s, false, o) || UsesOpt(p, o) || UsesOpt(i, o)
    case _ => false
  }

  predicate UsesOpt(p: Option<Program>, o: Options)
    decreases p, 3
  {
    match p
    case None => false
    case Some(q) => UsesProgram(q, o)
  }

  // ----- whole programs

  function EnvOf(p: Program, o: Options): Environment
    decreases p, 2
  {
    Environment(OpsBody(p.body, 0, o), EnvsBody(p.body, o), |p.body| == 1, UsesProgram(p, o))
  }

  function EnvsBody(body: seq<Stmt>, o: Options): seq<Environment>
    decreases body, 1
  {
    if body == [] then [] else EnvsStmt(body[0], o) + EnvsBody(body[1..], o)
  }

  function EnvsStmt(st: Stmt, o: Options): seq<Environment>
    decreases st, 0
  {
    match st
    case Block(_, p, i) => EnvsOpt(p, o) + EnvsOpt(i, o)
    case _ => []
  }

  function EnvsOpt(p: Option<Program>, o: Options): seq<Environment>
    decreases p, 3
  {
    match p
    case None => []
    case Some(q) => [EnvOf(q, o)]
  }
}

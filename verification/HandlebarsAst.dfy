/** The template syntax tree and the questions the compiler asks about it. */
module HandlebarsAst {
  import opened Wrappers
  import opened HandlebarsHash

  /** A path such as `../foo.bar` or `@index`.  `original` is the text as written. */
  datatype Path = Path(data: bool, depth: nat, parts: seq<string>, original: string)

  /** Parameters and hash values.  A number carries its canonical text, which is also its identity. */
  datatype Expr =
    | PathE(path: Path)
    | StringE(text: string)
    | NumberE(text: string)
    | BooleanE(b: bool)
    | UndefinedE
    | NullE
    | SubE(sexpr: Sexpr)

  datatype Pair = Pair(key: string, value: Expr)

  datatype Hash = NoHash | Hash(pairs: seq<Pair>)

  /** The callee, parameters and hash shared by mustaches, blocks and sub-expressions. */
  datatype Sexpr = Sexpr(callee: Expr, params: seq<Expr>, hash: Hash)

  datatype Stmt =
    | Content(text: string)
    | Comment
    | Mustache(sexpr: Sexpr, escaped: bool)
    | Block(sexpr: Sexpr, program: Option<Program>, inverse: Option<Program>)

  datatype Program = Program(body: seq<Stmt>)

  /** Compile-time options that change which opcodes are chosen.  `knownHelpers` are the names that object has a value for. */
  datatype Options = Options(knownHelpers: set<string>, noEscape: bool, trackIds: bool, stringParams: bool)

  predicate IsWordChar(c: char) {
    'a' <= c <= 'z' || 'A' <= c <= 'Z' || '0' <= c <= '9' || c == '_'
  }

  /** Does `s` hold "this" followed by a word boundary? */
  predicate HasThisWord(s: string) {
    |s| >= 4 &&
    ((s[..4] == "this" && (|s| == 4 || !IsWordChar(s[4]))) || HasThisWord(s[1..]))
  }

  predicate ScopedId(path: Path) {
    (path.original != "" && path.original[0] == '.') || HasThisWord(path.original)
  }

  predicate SimpleId(path: Path) {
    |path.parts| == 1 && !ScopedId(path) && path.depth == 0
  }

  /** The first path segment is missing, or is the empty string, which JavaScript treats alike. */
  predicate NoName(path: Path) {
    path.parts == [] || path.parts[0] == ""
  }

  predicate HelperExpression(s: Sexpr, isSub: bool) {
    isSub || s.params != [] || s.hash.Hash?
  }

  function LiteralText(e: Expr): string
    requires !e.PathE?
  {
    match e
    case SubE(_) => "undefined"
    case StringE(t) => t
    case NumberE(t) => t
    case BooleanE(b) => if b then "true" else "false"
    case UndefinedE => "undefined"
    case NullE => "null"
  }

  /** A literal in callee position is looked up as a one-segment path of its own text. */
  function CalleePath(e: Expr): Path {
    match e
    case PathE(p) => p
    case _ => Path(false, 0, [LiteralText(e)], LiteralText(e))
  }

  datatype Kind = Helper | Simple | Ambiguous

  predicate KnownHelper(path: Path, o: Options) {
    path.parts != [] && path.parts[0] in o.knownHelpers
  }

  function Classify(s: Sexpr, isSub: bool, o: Options): Kind {
    var path := CalleePath(s.callee);
    if HelperExpression(s, isSub) then Helper
    else if !SimpleId(path) then Simple
    else if KnownHelper(path, o) then Helper
    else Ambiguous
  }

  // ----- hash keys

  /** The array length a value is, if it is one. */
  function LengthOf(e: Expr): Option<nat> {
    match e
    case NumberE(t) => LengthText(t)
    case BooleanE(b) => Some(if b then 1 else 0)
    case _ => None
  }

  /** The pair can be stored in an array, and leaves the array's own `hasOwnProperty` alone. */
  predicate PairFits(p: Pair, o: Options) {
    p.key != "hasOwnProperty" && (p.key == "length" ==> !o.trackIds && !o.stringParams && LengthOf(p.value).Some?)
  }

  predicate ExprFits(e: Expr, o: Options)
    decreases e, 0
  {
    e.SubE? ==> KeysFit(e.sexpr, o)
  }

  /** So it is for all pairs of a head and of the sub-expressions inside it. */
  predicate KeysFit(s: Sexpr, o: Options)
    decreases s, 1
  {
    (forall k :: 0 <= k < |s.params| ==> ExprFits(s.params[k], o)) &&
    (s.hash.Hash? ==> forall k :: 0 <= k < |s.hash.pairs| ==> ExprFits(s.hash.pairs[k].value, o) && PairFits(s.hash.pairs[k], o))
  }

  // ----- nesting and use of outer contexts

  function Max(a: nat, b: nat): nat { if a < b then b else a }

  function Depth(p: Program): nat
    decreases p
  {
    1 + BodyDepth(p.body)
  }

  function BodyDepth(body: seq<Stmt>): nat
    decreases body
  {
    if body == [] then 0 else Max(StmtDepth(body[0]), BodyDepth(body[1..]))
  }

  function StmtDepth(s: Stmt): nat
    decreases s
  {
    match s
    case Block(_, p, i) => Max(OptDepth(p), OptDepth(i))
    case _ => 0
  }

  function OptDepth(p: Option<Program>): nat
    decreases p
  {
    match p
    case None => 0
    case Some(q) => Depth(q)
  }
}

/** The `Compiler` object: it walks the tree and appends to its opcode list, with a compiler of its own for each child program. */
module HandlebarsCompiler {
  import opened Wrappers
  import opened HandlebarsAst
  import opened HandlebarsOpcodes

  class Compiler {
    const options: Options
    var opcodes: seq<Op>
    var children: seq<Environment>
    var guid: nat
    var useDepths: bool

    ghost predicate Valid()
      reads this
    {
      guid == |children|
    }

    /** `ops` have been appended and nothing else changed but, perhaps, the note that outer contexts are used. */
    twostate predicate Appended(ops: seq<Op>, uses: bool)
      reads this
    {
      opcodes == old(opcodes) + ops && useDepths == (old(useDepths) || uses) &&
      children == old(children) && guid == old(guid)
    }

    constructor (o: Options)
      ensures options == o && opcodes == [] && children == [] && guid == 0 && !useDepths
    {
      options, opcodes, children, guid, useDepths := o, [], [], 0, false;
    }

    method Opcode(op: Op)
      modifies this
      ensures Appended([op], false)
    {
      opcodes := opcodes + [op];
    }

    method AddDepth(depth: nat)
      modifies this
      ensures Appended([], depth != 0)
    {
      if depth != 0 {
        useDepths := true;
      }
    }

    method PathExpression(p: Path, falsy: bool)
      modifies this
      ensures Appended(OpsPath(p, falsy), p.depth != 0)
    {
      AddDepth(p.depth);
      Opcode(GetContext(p.depth));
      if NoName(p) {
        Opcode(PushContext);
      } else if p.data {
        Opcode(LookupData(p.depth, p.parts));
      } else {
        Opcode(LookupOnContext(p.parts, falsy, ScopedId(p)));
      }
    }

    method Accept(e: Expr)
      modifies this
      ensures Appended(OpsExpr(e, options), UsesExpr(e, options))
      decreases e, 0
    {
      match e {
        case PathE(p) => PathExpression(p, false);
        case StringE(t) => Opcode(PushString(t));
        case NumberE(t) => Opcode(PushLiteral(NumLit(t)));
        case BooleanE(b) => Opcode(PushLiteral(BoolLit(b)));
        case UndefinedE => Opcode(PushLiteral(UndefinedLit));
        case NullE => Opcode(PushLiteral(NullLit));
        case SubE(s) => SubExpression(s, true, None, None);
      }
    }

    method PushParam(e: Expr)
      modifies this
      ensures Appended(OpsParam(e, options), UsesExpr(e, options))
      decreases e, 1
    {
      if options.stringParams {
        AddDepth(PathDepth(e));
        Opcode(GetContext(PathDepth(e)));
        Opcode(PushStringParam(StringParamValue(e), KindOf(e)));
        if e.SubE? {
          Accept(e);
        }
      } else {
        if options.trackIds {
          Opcode(PushId(KindOf(e), IdText(e)));
        }
        Accept(e);
      }
    }

    method PushParams(es: seq<Expr>)
      modifies this
      ensures Appended(OpsParams(es, options), AnyExpr(es, options))
      decreases es, 0
    {
      var i := 0;
      while i < |es|
        invariant 0 <= i <= |es|
        invariant old(opcodes) + OpsParams(es, options) == opcodes + OpsParams(es[i..], options)
        invariant (old(useDepths) || AnyExpr(es, options)) == (useDepths || AnyExpr(es[i..], options))
        invariant children == old(children) && guid == old(guid)
      {
        assert es[i..][0] == es[i] && es[i..][1..] == es[i + 1..];
        PushParam(es[i]);
        i := i + 1;
      }
      assert es[i..] == [];
    }

    method PairValues(ps: seq<Pair>)
      modifies this
      ensures Appended(OpsPairValues(ps, options), AnyPair(ps, options))
      decreases ps, 0
    {
      var i := 0;
      while i < |ps|
        invariant 0 <= i <= |ps|
        invariant old(opcodes) + OpsPairValues(ps, options) == opcodes + OpsPairValues(ps[i..], options)
        invariant (old(useDepths) || AnyPair(ps, options)) == (useDepths || AnyPair(ps[i..], options))
        invariant children == old(children) && guid == old(guid)
      {
        assert ps[i..][0] == ps[i] && ps[i..][1..] == ps[i + 1..];
        PushParam(ps[i].value);
        i := i + 1;
      }
      assert ps[i..] == [];
    }

    /** The keys are assigned last pair first. */
    method AssignKeys(ps: seq<Pair>)
      modifies this
      ensures Appended(OpsAssigns(ps), false)
    {
      var i := |ps|;
      assert ps[..i] == ps;
      while i > 0
        invariant 0 <= i <= |ps|
        invariant old(opcodes) + OpsAssigns(ps) == opcodes + OpsAssigns(ps[..i])
        invariant useDepths == old(useDepths) && children == old(children) && guid == old(guid)
      {
        i := i - 1;
        assert ps[..i + 1][..i] == ps[..i];
        Opcode(AssignToHash(ps[i].key));
      }
      assert ps[..0] == [];
    }

    method AcceptHash(h: Hash)
      modifies this
      ensures Appended(OpsHash(h, options), h.Hash? && AnyPair(h.pairs, options))
      decreases h, 1
    {
      match h {
        case NoHash => Opcode(EmptyHash);
        case Hash(ps) =>
          Opcode(PushHash);
          PairValues(ps);
          AssignKeys(ps);
          Opcode(PopHash);
      }
    }

    method SubExpression(s: Sexpr, isSub: bool, p: Option<nat>, i: Option<nat>)
      modifies this
      ensures Appended(OpsSexpr(s, isSub, p, i, options), UsesSexpr(s, isSub, options))
      decreases s, 1
    {
      var path := CalleePath(s.callee);
      match Classify(s, isSub, options) {
        case Simple =>
          PathExpression(path, false);
          Opcode(ResolvePossibleLambda);
        case Ambiguous =>
          AmbiguousSexpr(path, p, i);
        case Helper =>
          HelperSexpr(s, p, i);
      }
    }

    method AmbiguousSexpr(path: Path, p: Option<nat>, i: Option<nat>)
      requires path.parts != []
      modifies this
      ensures Appended([GetContext(path.depth), PushProgram(p), PushProgram(i)] + OpsPath(path, false) +
                       [InvokeAmbiguous(path.parts[0], p.Some? || i.Some?)], path.depth != 0)
    {
      hide OpsPath;
      Opcode(GetContext(path.depth));
      Opcode(PushProgram(p));
      Opcode(PushProgram(i));
      PathExpression(path, false);
      Opcode(InvokeAmbiguous(path.parts[0], p.Some? || i.Some?));
    }

    method HelperSexpr(s: Sexpr, p: Option<nat>, i: Option<nat>)
      modifies this
      ensures var path := CalleePath(s.callee);
              var call := if KnownHelper(path, options) then [InvokeKnownHelper(|s.params|, path.parts[0])]
                          else OpsPath(path, true) + [InvokeHelper(|s.params|, path.original, SimpleId(path))];
              Appended(OpsParams(s.params, options) + [PushProgram(p), PushProgram(i)] + OpsHash(s.hash, options) + call,
                       (path.depth != 0 && !KnownHelper(path, options)) ||
                       AnyExpr(s.params, options) || (s.hash.Hash? && AnyPair(s.hash.pairs, options)))
      decreases s, 0
    {
      hide OpsParams, OpsHash, OpsPath, AnyExpr, AnyPair;
      SetupFullMustacheParams(s, p, i);
      HelperCall(CalleePath(s.callee), |s.params|);
    }

    method SetupFullMustacheParams(s: Sexpr, p: Option<nat>, i: Option<nat>)
      modifies this
      ensures Appended(OpsParams(s.params, options) + [PushProgram(p), PushProgram(i)] + OpsHash(s.hash, options),
                       AnyExpr(s.params, options) || (s.hash.Hash? && AnyPair(s.hash.pairs, options)))
      decreases s, 0, 0
    {
      hide OpsParams, OpsHash, AnyExpr, AnyPair;
      PushParams(s.params);
      Opcode(PushProgram(p));
      Opcode(PushProgram(i));
      AcceptHash(s.hash);
    }

    method HelperCall(path: Path, n: nat)
      modifies this
      ensures Appended(if KnownHelper(path, options) then [InvokeKnownHelper(n, path.parts[0])]
                       else OpsPath(path, true) + [InvokeHelper(n, path.original, SimpleId(path))],
                       path.depth != 0 && !KnownHelper(path, options))
    {
      if KnownHelper(path, options) {
        Opcode(InvokeKnownHelper(n, path.parts[0]));
      } else {
        PathExpression(path, true);
        Opcode(InvokeHelper(n, path.original, SimpleId(path)));
      }
    }

    /** `compileProgram`: a fresh compiler for the child, stored under the next guid. */
    method CompileProgram(p: Option<Program>) returns (g: Option<nat>)
      requires Valid()
      modifies this
      ensures Valid() && g == Guid(p, old(guid))
      ensures opcodes == old(opcodes) && children == old(children) + EnvsOpt(p, options) && guid == old(guid) + Slots(p)
      ensures useDepths == (old(useDepths) || UsesOpt(p, options))
      decreases p, 3
    {
      match p {
        case None => g := None;
        case Some(q) =>
          var child := new Compiler(options);
          var env := child.Compile(q);
          g := Some(guid);
          guid := guid + 1;
          children := children + [env];
          useDepths := useDepths || env.useDepths;
      }
    }

    method Statement(st: Stmt)
      requires Valid()
      modifies this
      ensures Valid()
      ensures opcodes == old(opcodes) + OpsStmt(st, old(guid), options)
      ensures children == old(children) + EnvsStmt(st, options) && guid == old(guid) + StmtSlots(st)
      ensures useDepths == (old(useDepths) || UsesStmt(st, options))
      decreases st, 1
    {
      match st {
        case Content(t) =>
          if t != "" {
            Opcode(AppendContent(t));
          }
        case Comment =>
        case Mustache(s, escaped) =>
          MustacheStatement(s, escaped);
        case Block(s, p, i) =>
          BlockStatement(st);
      }
    }

    method MustacheStatement(s: Sexpr, escaped: bool)
      modifies this
      ensures Appended(OpsStmt(Mustache(s, escaped), 0, options), UsesSexpr(s, false, options))
    {
      hide OpsSexpr, UsesSexpr;
      SubExpression(s, false, None, None);
      if escaped && !options.noEscape {
        Opcode(AppendEscaped);
      } else {
        Opcode(AppendValue);
      }
    }

    method BlockStatement(st: Stmt)
      requires Valid() && st.Block?
      modifies this
      ensures Valid()
      ensures opcodes == old(opcodes) + OpsStmt(st, old(guid), options)
      ensures children == old(children) + EnvsStmt(st, options) && guid == old(guid) + StmtSlots(st)
      ensures useDepths == (old(useDepths) || UsesStmt(st, options))
      decreases st, 0
    {
      hide OpsSexpr, UsesSexpr, EnvsOpt, UsesOpt;
      var gp := CompileProgram(st.program);
      var gi := CompileProgram(st.inverse);
      BlockHead(st.sexpr, gp, gi);
      Opcode(AppendValue);
    }

    method BlockHead(s: Sexpr, gp: Option<nat>, gi: Option<nat>)
      modifies this
      ensures Appended(OpsSexpr(s, false, gp, gi, options) +
                       (match Classify(s, false, options)
                        case Helper => []
                        case Simple => [PushProgram(gp), PushProgram(gi), EmptyHash, BlockValue(CalleePath(s.callee).original)]
                        case Ambiguous => [PushProgram(gp), PushProgram(gi), EmptyHash, AmbiguousBlockValue]),
                       UsesSexpr(s, false, options))
    {
      SubExpression(s, false, gp, gi);
      var kind := Classify(s, false, options);
      if !kind.Helper? {
        Opcode(PushProgram(gp));
        Opcode(PushProgram(gi));
        Opcode(EmptyHash);
        if kind.Simple? {
          Opcode(BlockValue(CalleePath(s.callee).original));
        } else {
          Opcode(AmbiguousBlockValue);
        }
      }
    }

    /** The loop over the statements of a program. */
    method Body(body: seq<Stmt>)
      requires Valid()
      modifies this
      ensures opcodes == old(opcodes) + OpsBody(body, old(guid), options)
      ensures children == old(children) + EnvsBody(body, options)
      ensures useDepths == (old(useDepths) || UsesBody(body, options))
      decreases body, 1
    {
      hide OpsStmt, EnvsStmt, UsesStmt;
      var i := 0;
      while i < |body|
        invariant 0 <= i <= |body| && Valid()
        invariant old(opcodes) + OpsBody(body, old(guid), options) == opcodes + OpsBody(body[i..], guid, options)
        invariant old(children) + EnvsBody(body, options) == children + EnvsBody(body[i..], options)
        invariant (old(useDepths) || UsesBody(body, options)) == (useDepths || UsesBody(body[i..], options))
      {
        assert body[i..][0] == body[i] && body[i..][1..] == body[i + 1..];
        Statement(body[i]);
        i := i + 1;
      }
      assert body[i..] == [];
    }

    /** Compiling a program on a fresh compiler gives exactly its environment. */
    method Compile(p: Program) returns (env: Environment)
      requires opcodes == [] && children == [] && guid == 0 && !useDepths
      modifies this
      ensures env == EnvOf(p, options)
      decreases p, 2
    {
      Body(p.body);
      env := Environment(opcodes, children, |p.body| == 1, useDepths);
    }
  }
}

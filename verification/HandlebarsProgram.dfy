/** One program, from opcodes to the meaning of the function that is emitted for it. */
module HandlebarsProgram {
  import opened Wrappers
  import opened HandlebarsNames
  import opened HandlebarsAst
  import opened HandlebarsRuntime
  import opened HandlebarsInterp
  import opened HandlebarsOpcodes
  import opened HandlebarsTarget
  import opened HandlebarsMachine
  import opened HandlebarsExprs
  import opened HandlebarsEnvironments
  import opened HandlebarsStmts
  import opened HandlebarsOutput
  import opened HandlebarsMerge

  /** The merged body of the emitted lines. */
  function Merged(ls: seq<Line>, isSimple: bool): seq<BodyStmt> {
    if isSimple then MergeSimple(ls, [], false) else MergeStart(ls, [])
  }

  /** What the loop over the source lines has done when `rest` is left. */
  predicate Merging(ls: seq<Line>, rest: seq<Line>, isSimple: bool, out: seq<BodyStmt>, group: seq<JExpr>,
                    appendOnly: bool, appendFirst: bool, sourceSeen: bool) {
    if isSimple then appendOnly && Merged(ls, true) == out + MergeSimple(rest, group, sourceSeen)
    else if sourceSeen then
      !appendOnly && Merged(ls, false) == (if appendFirst then [] else [InitBuffer([JStr("")])]) + out + MergeFrom(rest, group)
    else out == [] && appendOnly && !appendFirst && Merged(ls, false) == MergeStart(rest, group)
  }

  lemma MergingExec(ls: seq<Line>, rest: seq<Line>, isSimple: bool, out: seq<BodyStmt>, group: seq<JExpr>,
                    appendOnly: bool, appendFirst: bool, sourceSeen: bool)
    requires Merging(ls, rest, isSimple, out, group, appendOnly, appendFirst, sourceSeen)
    requires rest != [] && rest[0].Exec?
    ensures var more := if group == [] then [] else if sourceSeen then [AddBuffer(group)] else [InitBuffer(group)];
            Merging(ls, rest[1..], isSimple, out + more + [Plain(rest[0].s)], [], appendOnly && isSimple,
                    appendFirst || (group != [] && !sourceSeen), true)
  {
    hide Merged, MergeSimple, MergeStart, MergeFrom;
    var s := rest[0].s;
    var more := if group == [] then [] else if sourceSeen then [AddBuffer(group)] else [InitBuffer(group)];
    MergeExecs(rest, group, sourceSeen, s);
    if isSimple {
      Regroup([], out, more, [Plain(s)], MergeSimple(rest[1..], [], true));
    } else {
      var tail := MergeFrom(rest[1..], []);
      var start := if appendFirst then [] else [InitBuffer([JStr("")])];
      if sourceSeen {
        Regroup(start, out, more, [Plain(s)], tail);
      } else if group == [] {
        Regroup([], start, [], [Plain(s)], tail);
        assert start + [Plain(s)] == start + ([] + [] + [Plain(s)]);
      } else {
        Regroup([], [], more, [Plain(s)], tail);
      }
    }
  }

  lemma Regroup<T>(a: seq<T>, b: seq<T>, c: seq<T>, d: seq<T>, e: seq<T>)
    ensures a + b + (c + d + e) == a + (b + c + d) + e
    ensures [] + b == b && [] + c == c && b + [] == b
  {
  }

  /** What merging makes of a statement line. */
  lemma MergeExecs(rest: seq<Line>, group: seq<JExpr>, seen: bool, s: JStmt)
    requires rest != [] && rest[0] == Exec(s)
    ensures MergeSimple(rest, group, seen) ==
            (if group == [] then [] else if seen then [AddBuffer(group)] else [InitBuffer(group)]) + [Plain(s)] + MergeSimple(rest[1..], [], true)
    ensures MergeFrom(rest, group) == (if group == [] then [] else [AddBuffer(group)]) + [Plain(s)] + MergeFrom(rest[1..], [])
    ensures MergeStart(rest, group) == [InitBuffer(if group == [] then [JStr("")] else group)] + [Plain(s)] + MergeFrom(rest[1..], [])
  {
    var first := InitBuffer(if group == [] then [JStr("")] else group);
    assert [first, Plain(s)] == [first] + [Plain(s)];
  }

  lemma MergingAppend(ls: seq<Line>, rest: seq<Line>, isSimple: bool, out: seq<BodyStmt>, group: seq<JExpr>,
                      appendOnly: bool, appendFirst: bool, sourceSeen: bool)
    requires Merging(ls, rest, isSimple, out, group, appendOnly, appendFirst, sourceSeen)
    requires rest != [] && rest[0].Append?
    ensures Merging(ls, rest[1..], isSimple, out, group + [rest[0].e], appendOnly, appendFirst, sourceSeen)
  {
    hide Merged;
  }

  lemma MergingEnd(ls: seq<Line>, isSimple: bool, out: seq<BodyStmt>, group: seq<JExpr>, appendOnly: bool, appendFirst: bool, sourceSeen: bool)
    requires Merging(ls, [], isSimple, out, group, appendOnly, appendFirst, sourceSeen)
    ensures Merged(ls, isSimple) ==
            if !appendOnly then (if appendFirst then [] else [InitBuffer([JStr("")])]) + out + [ReturnBufferPlus(group)]
            else if group != [] then out + [ReturnSum(group)]
            else if !sourceSeen then out + [ReturnSum([JStr("")])]
            else out
  {
    hide Merged;
    assert out + [] == out;
    assert !isSimple && !sourceSeen ==> out + MergeStart([], group) == MergeStart([], group);
  }

  /** The loop over the source lines, which joins neighbouring appends and decides where the buffer starts. */
  method MergeSource(ls: seq<Line>, isSimple: bool) returns (body: seq<BodyStmt>)
    ensures body == Merged(ls, isSimple)
  {
    var out: seq<BodyStmt>, group: seq<JExpr> := [], [];
    var appendOnly, appendFirst, sourceSeen := true, false, false;
    var i := 0;
    assert ls[0..] == ls && forall x: seq<BodyStmt> :: [] + x == x;
    hide Merged, MergeSimple, MergeStart, MergeFrom;
    while i < |ls|
      invariant 0 <= i <= |ls|
      invariant Merging(ls, ls[i..], isSimple, out, group, appendOnly, appendFirst, sourceSeen)
    {
      assert ls[i..][0] == ls[i] && ls[i..][1..] == ls[i + 1..];
      hide Merging;
      match ls[i] {
        case Append(e) =>
          MergingAppend(ls, ls[i..], isSimple, out, group, appendOnly, appendFirst, sourceSeen);
          group := group + [e];
        case Exec(s) =>
          MergingExec(ls, ls[i..], isSimple, out, group, appendOnly, appendFirst, sourceSeen);
          assert out + [] == out;
          if group != [] {
            if !sourceSeen {
              appendFirst := true;
              out := out + [InitBuffer(group)];
            } else {
              out := out + [AddBuffer(group)];
            }
            group := [];
          }
          sourceSeen := true;
          if !isSimple {
            appendOnly := false;
          }
          out := out + [Plain(s)];
      }
      i := i + 1;
    }
    assert ls[i..] == [];
    MergingEnd(ls, isSimple, out, group, appendOnly, appendFirst, sourceSeen);
    if appendOnly {
      if group != [] {
        body := out + [ReturnSum(group)];
      } else if !sourceSeen {
        body := out + [ReturnSum([JStr("")])];
      } else {
        body := out;
      }
    } else {
      assert [] + out == out;
      if !appendFirst {
        out := [InitBuffer([JStr("")])] + out;
      }
      body := out + [ReturnBufferPlus(group)];
    }
  }

  const EMPTY_LOCALS := map[]

  /** The locals on entry to a template function. */
  function Locals(w: World): Store { Store(w, EMPTY_LOCALS, Undefined, None) }

  /** The code of one program, or the compiler's error. */
  function CodeOf(cc: Setting, ops: seq<Op>): Result<seq<BodyStmt>> {
    var st :- CompileOps(cc, ops);
    Success(Merged(st.lines, cc.isSimple))
  }

  /** Compiling a program cannot fail, and the function it yields returns the text the interpreter prints:
      same text, same order of effects, same exceptions. */
  lemma ProgramCorrect(cc: Setting, rt: Runtime, env: Env, fr: Frame, body: seq<Stmt>, w: World)
    requires Monotone(rt) && DefaultOptions(cc.opts) && SameView(cc, env, fr)
    requires cc.isSimple ==> BodyOutputs(body) <= 1
    requires forall k :: 0 <= k < |body| ==> WfStmt(body[k], cc.opts)
    requires UsesBody(body, cc.opts) ==> cc.useDepths
    requires BodySlots(body) <= |cc.refs| && SameBodyPrograms(cc, env, fr, body, 0) && BodyFits(body, cc.opts)
    ensures var c := CodeOf(cc, OpsBody(body, 0, cc.opts));
            c.Success? && SimText("", InterpBody(rt, cc.opts, env, body, w), ExecBody(rt, fr, c.value, Locals(w), Undefined))
  {
    hide *;
    CompileProgram(cc, body);
    CodeIs(cc, OpsBody(body, 0, cc.opts));
    if cc.isSimple {
      SimpleProgram(cc, rt, env, fr, body, w);
    } else {
      BufferedProgram(cc, rt, env, fr, body, w);
    }
  }

  lemma CodeIs(cc: Setting, ops: seq<Op>)
    ensures var r := CompileOps(cc, ops);
            CodeOf(cc, ops) == (match r case Success(st) => Success(Merged(st.lines, cc.isSimple)) case Failure(e) => Failure(e))
  {
  }

  lemma SimpleProgram(cc: Setting, rt: Runtime, env: Env, fr: Frame, body: seq<Stmt>, w: World)
    requires Monotone(rt) && DefaultOptions(cc.opts) && SameView(cc, env, fr) && cc.isSimple
    requires BodyOutputs(body) <= 1
    requires forall k :: 0 <= k < |body| ==> WfStmt(body[k], cc.opts)
    requires UsesBody(body, cc.opts) ==> cc.useDepths
    requires SameBodyPrograms(cc, env, fr, body, 0)
    ensures SimText("", InterpBody(rt, cc.opts, env, body, w),
                    ExecBody(rt, fr, Merged(BodyLines(cc, body, 0, ""), true), Locals(w), Undefined))
  {
    hide ExecLines, ExecBody, InterpBody, BodyLines, Named;
    var ls := BodyLines(cc, body, 0, "");
    OneOutputShape(cc, body, 0, "");
    SimpleIsPlain(ls, false);
    OneOutputCorrect(cc, rt, env, fr, body, 0, "", Locals(w));
    if ls == [] {
      ReturnEmpty(rt, fr, Locals(w));
    } else {
      PlainLinesCorrect(rt, fr, ls, [], Locals(w), "", Undefined);
      assert PlainLines(ls) + [] == PlainLines(ls);
    }
  }

  lemma BufferedProgram(cc: Setting, rt: Runtime, env: Env, fr: Frame, body: seq<Stmt>, w: World)
    requires Monotone(rt) && DefaultOptions(cc.opts) && SameView(cc, env, fr) && !cc.isSimple
    requires forall k :: 0 <= k < |body| ==> WfStmt(body[k], cc.opts)
    requires UsesBody(body, cc.opts) ==> cc.useDepths
    requires SameBodyPrograms(cc, env, fr, body, 0)
    ensures SimText("", InterpBody(rt, cc.opts, env, body, w),
                    ExecBody(rt, fr, Merged(BodyLines(cc, body, 0, ""), false), Locals(w), Undefined))
  {
    hide ExecLines, ExecBody, InterpBody, BodyLines, MergeStart, Named;
    var ls := BodyLines(cc, body, 0, "");
    NonSimpleShape(cc, body, 0, "");
    BodyCorrect(cc, rt, env, fr, body, 0, "", Locals(w), "");
    MergeStartCorrect(rt, fr, ls, [], Locals(w), Undefined);
    assert "" + "" == "";
    assert Appends([]) + ls == ls;
  }

  lemma ReturnEmpty(rt: Runtime, fr: Frame, s: Store)
    ensures ExecBody(rt, fr, [ReturnSum([JStr("")])], s, Undefined) == Done(s, Str(""))
    ensures ExecLines(rt, fr, [], s, "") == Done(s, Str(""))
  {
    hide Named;
    EmptyString(rt, fr, s);
  }
}

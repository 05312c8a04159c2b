/** `mergeSource`: joining the emitted lines into one function body. */
module HandlebarsMerge {
  import opened Sequences
  import opened HandlebarsNames
  import opened HandlebarsAst
  import opened HandlebarsRuntime
  import opened HandlebarsTarget

  // ----- the merged body, read off the lines

  /** The rest of a body that has a buffer; `group` holds the appends not yet written out. */
  function MergeFrom(ls: seq<Line>, group: seq<JExpr>): seq<BodyStmt>
    decreases |ls|
  {
    if ls == [] then [ReturnBufferPlus(group)]
    else
      match ls[0]
      case Append(e) => MergeFrom(ls[1..], group + [e])
      case Exec(s) => (if group == [] then [] else [AddBuffer(group)]) + [Plain(s)] + MergeFrom(ls[1..], [])
  }

  /** The whole body; `group` holds the appends seen so far, before any other line. */
  function MergeStart(ls: seq<Line>, group: seq<JExpr>): seq<BodyStmt>
    decreases |ls|
  {
    if ls == [] then [ReturnSum(if group == [] then [JStr("")] else group)]
    else
      match ls[0]
      case Append(e) => MergeStart(ls[1..], group + [e])
      case Exec(s) => [InitBuffer(if group == [] then [JStr("")] else group), Plain(s)] + MergeFrom(ls[1..], [])
  }

  function PlainLines(ls: seq<Line>): seq<BodyStmt>
    requires forall k :: 0 <= k < |ls| ==> ls[k].Exec?
  {
    if ls == [] then [] else [Plain(ls[0].s)] + PlainLines(ls[1..])
  }

  /** A program of one statement declares no buffer.  Append lines never occur in one; if they did, this is what
      would be done with them. */
  function MergeSimple(ls: seq<Line>, group: seq<JExpr>, seen: bool): seq<BodyStmt>
    decreases |ls|
  {
    if ls == [] then (if group != [] then [ReturnSum(group)] else if !seen then [ReturnSum([JStr("")])] else [])
    else
      match ls[0]
      case Append(e) => MergeSimple(ls[1..], group + [e], seen)
      case Exec(s) =>
        (if group == [] then [] else if seen then [AddBuffer(group)] else [InitBuffer(group)]) + [Plain(s)] +
        MergeSimple(ls[1..], [], true)
  }

  lemma {:induction false} SimpleIsPlain(ls: seq<Line>, seen: bool)
    requires forall k :: 0 <= k < |ls| ==> ls[k].Exec?
    ensures MergeSimple(ls, [], seen) == if ls == [] && !seen then [ReturnSum([JStr("")])] else PlainLines(ls)
    decreases |ls|
  {
    if ls != [] {
      SimpleIsPlain(ls[1..], true);
      assert [] + [Plain(ls[0].s)] + PlainLines(ls[1..]) == [Plain(ls[0].s)] + PlainLines(ls[1..]);
    }
  }

  // ----- meaning

  /** `y` does what `x` does, unless `x` is outside the model. */
  ghost predicate Refines<T(!new)>(x: Out<T>, y: Out<T>) { x.OutStuck? || y == x }

  function Appends(es: seq<JExpr>): (ls: seq<Line>)
    ensures |ls| == |es|
    ensures forall k :: 0 <= k < |es| ==> ls[k] == Append(es[k])
  {
    if es == [] then [] else [Append(es[0])] + Appends(es[1..])
  }

  lemma AppendsSnoc(es: seq<JExpr>, e: JExpr, ls: seq<Line>)
    ensures Appends(es) + ([Append(e)] + ls) == Appends(es + [e]) + ls
  {
    assert Appends(es + [e]) == Appends(es) + [Append(e)];
  }

  /** Adding pieces to a string one at a time is what the append lines print. */
  lemma {:induction false} SumFrom(rt: Runtime, fr: Frame, es: seq<JExpr>, s: Store, out: string)
    ensures Refines(ExecLines(rt, fr, Appends(es), s, out), EvalSum(rt, fr, es, Str(out), s))
    decreases |es|
  {
    hide Eval, Named;
    if es != [] {
      assert Appends(es)[1..] == Appends(es[1..]);
      var x := Eval(rt, fr, es[0], s);
      if x.Done? && x.v.Str? { SumFrom(rt, fr, es[1..], x.s, out + x.v.s); }
    }
  }

  /** What has been printed before does not matter to what is printed next. */
  lemma {:induction false} OutputShift(rt: Runtime, fr: Frame, es: seq<JExpr>, s: Store, out: string, more: string)
    ensures var x := ExecLines(rt, fr, Appends(es), s, more);
            ExecLines(rt, fr, Appends(es), s, out + more) ==
            if x.Done? && x.v.Str? then Done(x.s, Str(out + x.v.s)) else x
    ensures var x := ExecLines(rt, fr, Appends(es), s, more); x.Done? ==> x.v.Str?
    decreases |es|
  {
    hide Eval, Named;
    if es != [] {
      assert Appends(es)[1..] == Appends(es[1..]);
      var x := Eval(rt, fr, es[0], s);
      if x.Done? && x.v.Str? {
        assert out + more + x.v.s == out + (more + x.v.s);
        OutputShift(rt, fr, es[1..], x.s, out, more + x.v.s);
      }
    }
  }

  /** `a + b + c` on its own. */
  lemma SumAlone(rt: Runtime, fr: Frame, es: seq<JExpr>, s: Store)
    requires es != []
    ensures Refines(ExecLines(rt, fr, Appends(es), s, ""), EvalSum1(rt, fr, es, s))
  {
    hide Eval, Named;
    assert Appends(es)[1..] == Appends(es[1..]);
    var x := Eval(rt, fr, es[0], s);
    if x.Done? && x.v.Str? {
      assert "" + x.v.s == x.v.s;
      SumFrom(rt, fr, es[1..], x.s, x.v.s);
    }
  }

  /** `buffer += a + b + c` prints the same pieces as appending them one by one. */
  lemma AddCorrect(rt: Runtime, fr: Frame, es: seq<JExpr>, s: Store, out: string)
    requires es != []
    ensures var x := ExecLines(rt, fr, Appends(es), s, out);
            var y := EvalSum1(rt, fr, es, s);
            x.OutStuck? || (if x.Done? then y.Done? && y.s == x.s && x.v.Str? && Plus(rt, Str(out), y.v) == x.v else y == x)
  {
    hide Eval, ExecLines, EvalSum1, Named;
    assert out + "" == out;
    OutputShift(rt, fr, es, s, out, "");
    SumAlone(rt, fr, es, s);
  }

  predicate NonSimple(l: Line) { l.Append? || l.s.SetTemp? || l.s.IfNoHelper? || l.s.IfNotNullAppend? }

  /** Append lines and then others. */
  lemma {:induction false} ExecAppends(rt: Runtime, fr: Frame, es: seq<JExpr>, ls: seq<Line>, s: Store, out: string)
    ensures var x := ExecLines(rt, fr, Appends(es), s, out);
            (x.Done? ==> x.v.Str?) &&
            ExecLines(rt, fr, Appends(es) + ls, s, out) == if x.Done? then ExecLines(rt, fr, ls, x.s, x.v.s) else x
    decreases |es|
  {
    hide Eval, Named;
    if es == [] {
      assert Appends(es) + ls == ls;
    } else {
      assert (Appends(es) + ls)[1..] == Appends(es[1..]) + ls && Appends(es)[1..] == Appends(es[1..]);
      var x := Eval(rt, fr, es[0], s);
      if x.Done? && x.v.Str? { ExecAppends(rt, fr, es[1..], ls, x.s, out + x.v.s); }
    }
  }

  /** With a buffer holding what has been printed, the merged rest prints what the lines print. */
  lemma {:induction false} MergeFromCorrect(rt: Runtime, fr: Frame, ls: seq<Line>, group: seq<JExpr>, s: Store, out: string)
    requires forall k :: 0 <= k < |ls| ==> NonSimple(ls[k])
    ensures Refines(ExecLines(rt, fr, Appends(group) + ls, s, out), ExecBody(rt, fr, MergeFrom(ls, group), s, Str(out)))
    decreases |ls|, 1
  {
    hide Eval, EvalSum, EvalSum1, ExecLines, Named;
    if ls == [] {
      assert Appends(group) + ls == Appends(group);
      SumFrom(rt, fr, group, s, out);
    } else if ls[0].Append? {
      assert ls == [ls[0]] + ls[1..];
      AppendsSnoc(group, ls[0].e, ls[1..]);
      MergeFromCorrect(rt, fr, ls[1..], group + [ls[0].e], s, out);
    } else {
      ExecAppends(rt, fr, group, ls, s, out);
      var x := ExecLines(rt, fr, Appends(group), s, out);
      var rest := [Plain(ls[0].s)] + MergeFrom(ls[1..], []);
      if group == [] {
        assert MergeFrom(ls, group) == [] + [Plain(ls[0].s)] + MergeFrom(ls[1..], []) == rest;
        NoAppends(rt, fr, s, out);
        PlainCorrect(rt, fr, ls, s, out);
      } else {
        var b := MergeFrom(ls, group);
        assert b == [AddBuffer(group)] + rest && b[0] == AddBuffer(group) && b[1..] == rest;
        AddCorrect(rt, fr, group, s, out);
        if x.Done? { PlainCorrect(rt, fr, ls, x.s, x.v.s); }
      }
    }
  }

  lemma NoAppends(rt: Runtime, fr: Frame, s: Store, out: string)
    ensures ExecLines(rt, fr, Appends([]), s, out) == Done(s, Str(out))
  {
    hide Named;
  }

  /** A statement line is executed as it stands. */
  lemma PlainCorrect(rt: Runtime, fr: Frame, ls: seq<Line>, s: Store, out: string)
    requires ls != [] && ls[0].Exec?
    requires forall k :: 0 <= k < |ls| ==> NonSimple(ls[k])
    ensures Refines(ExecLines(rt, fr, ls, s, out), ExecBody(rt, fr, [Plain(ls[0].s)] + MergeFrom(ls[1..], []), s, Str(out)))
    decreases |ls|, 0
  {
    hide Eval, EvalSum, EvalSum1, Named;
    var b := [Plain(ls[0].s)] + MergeFrom(ls[1..], []);
    assert b[0] == Plain(ls[0].s) && b[1..] == MergeFrom(ls[1..], []);
    match ls[0].s
    case SetTemp(n, e) =>
      var x := Eval(rt, fr, e, s);
      if x.Done? { RestCorrect(rt, fr, ls[1..], x.s.(temps := x.s.temps[n := x.v]), out); }
    case IfNoHelper(name, n, e) =>
      if Named(name).None? {
      } else if Truthy(rt.helper(Named(name).value)) {
        RestCorrect(rt, fr, ls[1..], s, out);
      } else {
        var x := Eval(rt, fr, e, s);
        if x.Done? { RestCorrect(rt, fr, ls[1..], x.s.(temps := x.s.temps[n := x.v]), out); }
      }
    case IfNotNullAppend(e) =>
      var x := Eval(rt, fr, e, s);
      if x.Done? {
        if Nullish(x.v) {
          RestCorrect(rt, fr, ls[1..], x.s, out);
        } else {
          var y := Eval(rt, fr, e, x.s);
          if y.Done? && y.v.Str? { RestCorrect(rt, fr, ls[1..], y.s, out + y.v.s); }
        }
      }
  }

  lemma RestCorrect(rt: Runtime, fr: Frame, ls: seq<Line>, s: Store, out: string)
    requires forall k :: 0 <= k < |ls| ==> NonSimple(ls[k])
    ensures Refines(ExecLines(rt, fr, ls, s, out), ExecBody(rt, fr, MergeFrom(ls, []), s, Str(out)))
    decreases |ls|, 2
  {
    hide Named;
    MergeFromCorrect(rt, fr, ls, [], s, out);
    assert Appends([]) + ls == ls;
  }

  lemma EmptyString(rt: Runtime, fr: Frame, s: Store)
    ensures EvalSum1(rt, fr, [JStr("")], s) == Done(s, Str(""))
  {
    hide Named;
    assert [JStr("")][1..] == [];
  }

  lemma {:induction false} MergeStartCorrect(rt: Runtime, fr: Frame, ls: seq<Line>, group: seq<JExpr>, s: Store, buffer: Value)
    requires forall k :: 0 <= k < |ls| ==> NonSimple(ls[k])
    ensures Refines(ExecLines(rt, fr, Appends(group) + ls, s, ""), ExecBody(rt, fr, MergeStart(ls, group), s, buffer))
    decreases |ls|
  {
    hide Eval, EvalSum, EvalSum1, ExecLines, Named;
    EmptyString(rt, fr, s);
    NoAppends(rt, fr, s, "");
    if group != [] { SumAlone(rt, fr, group, s); }
    if ls == [] {
      assert Appends(group) + ls == Appends(group);
    } else if ls[0].Append? {
      assert ls == [ls[0]] + ls[1..];
      AppendsSnoc(group, ls[0].e, ls[1..]);
      MergeStartCorrect(rt, fr, ls[1..], group + [ls[0].e], s, buffer);
    } else {
      var b := MergeStart(ls, group);
      var rest := [Plain(ls[0].s)] + MergeFrom(ls[1..], []);
      assert b[1..] == rest;
      ExecAppends(rt, fr, group, ls, s, "");
      var x := ExecLines(rt, fr, Appends(group), s, "");
      if x.Done? { PlainCorrect(rt, fr, ls, x.s, x.v.s); }
    }
  }

  /** A statement line does the same among the lines and in the body, up to what follows it. */
  lemma PlainStep(rt: Runtime, fr: Frame, ls: seq<Line>, b: seq<BodyStmt>, s: Store, out: string, buffer: Value)
    requires ls != [] && b != [] && ls[0].Exec? && b[0] == Plain(ls[0].s) && !ls[0].s.IfNotNullAppend?
    requires !ls[0].s.ReturnValue? && !ls[0].s.ElseReturnEmpty? ==>
               forall s1 :: ExecLines(rt, fr, ls[1..], s1, out) == ExecBody(rt, fr, b[1..], s1, buffer)
    ensures ExecLines(rt, fr, ls, s, out) == ExecBody(rt, fr, b, s, buffer)
  {
    hide Eval, Named, EvalSum, EvalSum1;
    match ls[0].s
    case SetTemp(n, e) =>
      var x := Eval(rt, fr, e, s);
      if x.Done? { assert ExecLines(rt, fr, ls[1..], x.s.(temps := x.s.temps[n := x.v]), out) == ExecBody(rt, fr, b[1..], x.s.(temps := x.s.temps[n := x.v]), buffer); }
    case _ =>
  }

  /** A program of one statement has no append lines; its statements are kept as they are. */
  lemma {:induction false} PlainLinesCorrect(rt: Runtime, fr: Frame, ls: seq<Line>, tail: seq<BodyStmt>, s: Store, out: string, buffer: Value)
    requires forall k :: 0 <= k < |ls| ==> ls[k].Exec? && !ls[k].s.IfNotNullAppend?
    requires ls != [] && (Last(ls).s.ReturnValue? || Last(ls).s.ElseReturnEmpty?)
    ensures ExecLines(rt, fr, ls, s, out) == ExecBody(rt, fr, PlainLines(ls) + tail, s, buffer)
    decreases |ls|
  {
    hide Eval, ExecLines, ExecBody, Named;
    var b := PlainLines(ls) + tail;
    assert b[0] == Plain(ls[0].s);
    if |ls| > 1 {
      assert b[1..] == PlainLines(ls[1..]) + tail;
      assert Last(ls[1..]) == Last(ls);
      forall s1 ensures ExecLines(rt, fr, ls[1..], s1, out) == ExecBody(rt, fr, b[1..], s1, buffer) {
        PlainLinesCorrect(rt, fr, ls[1..], tail, s1, out, buffer);
      }
    }
    PlainStep(rt, fr, ls, b, s, out, buffer);
  }
}

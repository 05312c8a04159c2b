/** Every step of a deferred keeps the invariant, and what that says about runs. */
module DeferredTheorems {
  import opened Wrappers
  import opened CallbacksList
  import opened DeferredSteps
  import opened DeferredSafety

  function Added<A>(d: Deferred<A>, side: Side): seq<nat> { if side.Done? then d.doneAdded else d.failAdded }

  // ----- settling

  /** One of the functions at the head of the list has been called: it takes effect and returns, and the next one is called. */
  lemma InternalStep<A>(d: Deferred<A>, side: Side, n: nat)
    requires n > 0 && Settling(Get(d, side), Added(d, side)) && Get(d, side).firing && 0 < |Get(d, side).log| <= 3
    ensures var c := Get(d, side);
            var e := Effect(d, side, INTERNAL[|c.log| - 1]);
            && Get(e, side) == c
            && RunInternal(d, side, n) == RunInternal(Set(e, side, Return(ONCE_MEMORY, c)), side, n - 1)
  {
    hide Return, Lock, Disable;
    var c := Get(d, side);
    assert c.log[|c.log| - 1].fn == INTERNAL[|c.log| - 1];
  }

  lemma RunsOut<A>(d: Deferred<A>, side: Side)
    ensures RunInternal(d, side, 0) == d
  {
  }

  /** What settling amounts to: the state, the other side disabled, the progress list locked, and the list past its own functions. */
  lemma SettlePending<A>(d: Deferred<A>, side: Side, args: A)
    requires Inv(d) && d.state.Pending?
    ensures var r := Settle(d, side, args);
            var c1 := FireWith(ONCE_MEMORY, Get(d, side), args);
            && c1.firing && Return(ONCE_MEMORY, c1).firing && Return(ONCE_MEMORY, Return(ONCE_MEMORY, c1)).firing
            && r == Set(Set(d, side, Return(ONCE_MEMORY, Return(ONCE_MEMORY, Return(ONCE_MEMORY, c1)))), Other(side), Disable(Get(d, Other(side))))
                    .(state := OutcomeOf(side), changes := d.changes + 1, progress := Lock(d.progress), settledWith := Some(args))
  {
    hide Return, Lock, Disable, RunInternal, FireWith, Settling;
    var added := Added(d, side);
    var c := Get(d, side);
    Waiting(c, added);
    FireSettling(c, added, args);
    var c1 := FireWith(ONCE_MEMORY, c, args);
    var d1 := Set(d, side, c1).(settledWith := Some(args));
    Waiting(c1, added);
    InternalStep(d1, side, 3);
    ReturnSettling(c1, added);
    var c2 := Return(ONCE_MEMORY, c1);
    var d2 := Set(Effect(d1, side, SetState), side, c2);
    Waiting(c2, added);
    InternalStep(d2, side, 2);
    ReturnSettling(c2, added);
    var c3 := Return(ONCE_MEMORY, c2);
    var d3 := Set(Effect(d2, side, DisableOther), side, c3);
    Waiting(c3, added);
    InternalStep(d3, side, 1);
    RunsOut(Set(Effect(d3, side, LockProgress), side, Return(ONCE_MEMORY, c3)), side);
  }

  lemma Waiting<A>(c: Callbacks<Handler, A>, added: seq<nat>)
    requires Settling(c, added)
    ensures c.list.Some? && c.stack.None? && c.next >= 3 && (!c.fired ==> c.log == [])
  {
  }

  lemma DisableLoses<A>(c: Callbacks<Handler, A>, added: seq<nat>)
    requires Settling(c, added) && !c.fired
    ensures Lost(Disable(c))
  {
  }

  lemma SettleInv<A>(d: Deferred<A>, side: Side, args: A)
    requires Inv(d)
    ensures Inv(Settle(d, side, args))
    ensures d.state.Pending? ==> Settle(d, side, args).state == OutcomeOf(side) && Settle(d, side, args).settledWith == Some(args)
    ensures !d.state.Pending? ==> Settle(d, side, args) == d
  {
    hide Return, Lock, RunInternal, FireWith, Settling, Disable, Lost;
    var added, other := Added(d, side), Added(d, Other(side));
    if d.state.Pending? {
      SettlePending(d, side, args);
      var c := Get(d, side);
      FireSettling(c, added, args);
      var c1 := FireWith(ONCE_MEMORY, c, args);
      ReturnSettling(c1, added);
      var c2 := Return(ONCE_MEMORY, c1);
      ReturnSettling(c2, added);
      ReturnSettling(Return(ONCE_MEMORY, c2), added);
      DisableLoses(Get(d, Other(side)), other);
    } else {
      SettledRefuses(d, side);
    }
  }

  /** A settled deferred does not settle again, on either side. */
  lemma SettledRefuses<A>(d: Deferred<A>, side: Side)
    requires Inv(d) && !d.state.Pending?
    ensures var c := Get(d, side); !(c.list.Some? && (!c.fired || c.stack.Some?))
  {
  }

  // ----- the other steps

  lemma RegisterInv<A>(d: Deferred<A>, side: Side, ids: seq<nat>)
    requires Inv(d)
    ensures Inv(Register(d, side, ids))
  {
    hide Add, Settling;
    var c := Get(d, side);
    if c.list.Some? {
      Listed(d, side);
      AddSettling(c, Added(d, side), ids);
    } else {
      AddLost(c, ids);
      Unlisted(d, side);
    }
  }

  lemma Listed<A>(d: Deferred<A>, side: Side)
    requires Inv(d) && Get(d, side).list.Some?
    ensures Settling(Get(d, side), Added(d, side))
  {
  }

  lemma Unlisted<A>(d: Deferred<A>, side: Side)
    requires Inv(d) && Get(d, side).list.None?
    ensures Lost(Get(d, side)) && d.state == OutcomeOf(Other(side))
  {
  }

  lemma AddLost<A>(c: Callbacks<Handler, A>, ids: seq<nat>)
    requires c.list.None?
    ensures Add(ONCE_MEMORY, c, Users(ids)) == c
  {
  }

  lemma ReturnInv<A>(d: Deferred<A>, side: Side)
    requires Inv(d) && Get(d, side).firing
    ensures Inv(Set(d, side, Return(ONCE_MEMORY, Get(d, side))))
  {
    hide Return, Settling;
    FiringListed(d, side);
    ReturnSettling(Get(d, side), Added(d, side));
  }

  lemma FiringListed<A>(d: Deferred<A>, side: Side)
    requires Inv(d) && Get(d, side).firing
    ensures Settling(Get(d, side), Added(d, side)) && d.state == OutcomeOf(side)
  {
  }

  lemma StepInv<A>(d: Deferred<A>, e: Event<A>)
    requires Inv(d) && Enabled(d, e)
    ensures Inv(Step(d, e))
  {
    hide Settling, Lost, Settle, Register, Return, Add, FireWith;
    match e
    case ESettle(side, args) => SettleInv(d, side, args);
    case ERegister(side, ids) => RegisterInv(d, side, ids);
    case EReturn(side) => ReturnInv(d, side);
    case _ =>
  }

  lemma CreateInv<A>()
    ensures Inv(Create<A>())
  {
    var none: seq<Entry<Handler>> := [];
    PushPlain(ONCE_MEMORY, none, 0, INTERNAL);
  }

  lemma {:induction false} RunInv<A(!new)>(events: seq<Event<A>>, d: Deferred<A>)
    requires Reaches(events, d)
    ensures Inv(d)
  {
    hide Inv, Step, Create;
    if events == [] {
      CreateInv<A>();
    } else {
      var n := |events| - 1;
      var b :| Reaches(events[..n], b) && Enabled(b, events[n]) && d == Step(b, events[n]);
      RunInv(events[..n], b);
      StepInv(b, events[n]);
    }
  }

  // ----- runs

  /** A deferred settles at most once, whoever calls what from where: the state it has settled in is final. */
  lemma SettlesOnce<A(!new)>(events: seq<Event<A>>, d: Deferred<A>, e: Event<A>)
    requires Reaches(events, d) && Enabled(d, e)
    ensures d.changes == if d.state.Pending? then 0 else 1
    ensures !d.state.Pending? ==> Step(d, e).state == d.state && Step(d, e).changes == d.changes && Step(d, e).settledWith == d.settledWith
    ensures d.state.Pending? ==> Step(d, e).state == if e.ESettle? then OutcomeOf(e.side) else Pending
  {
    hide Settling, Lost, Settle, Register, Return, Add, FireWith;
    RunInv(events, d);
    match e
    case ESettle(side, args) => SettleInv(d, side, args);
    case ERegister(side, ids) => RegisterKeeps(d, side, ids);
    case _ =>
  }

  lemma RegisterKeeps<A>(d: Deferred<A>, side: Side, ids: seq<nat>)
    ensures var r := Register(d, side, ids); r.state == d.state && r.changes == d.changes && r.settledWith == d.settledWith
  {
    hide Add;
  }

  /** No callback of the losing side is ever called, and none at all before the deferred settles. */
  lemma LosersSilent<A(!new)>(events: seq<Event<A>>, d: Deferred<A>, side: Side)
    requires Reaches(events, d) && d.state != OutcomeOf(side)
    ensures Get(d, side).log == []
  {
    RunInv(events, d);
  }

  /**
   * On the winning side the calls are those of the registrations, in the order they were made, each once and each with the
   * settling arguments: those already called while the side is still firing, and all of them, whenever they were made, when it is not.
   */
  lemma WinnersOnce<A(!new)>(events: seq<Event<A>>, d: Deferred<A>, side: Side)
    requires Reaches(events, d) && d.state == OutcomeOf(side)
    ensures var c, added := Get(d, side), Added(d, side);
            && 3 <= |c.log| <= 3 + |added|
            && (forall k :: 3 <= k < |c.log| ==> c.log[k].tag == k && c.log[k].fn == User(added[k - 3]) && d.settledWith == Some(c.log[k].data))
            && (!c.firing ==> |c.log| == 3 + |added|)
  {
    RunInv(events, d);
    var c, added := Get(d, side), Added(d, side);
    forall k | 3 <= k < |c.log| ensures c.log[k].fn == User(added[k - 3]) {
      assert c.log[k].fn == Nth(added, k);
    }
  }
}

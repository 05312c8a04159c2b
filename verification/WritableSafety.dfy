/** What every run of a writable stream keeps. */
module WritableSafety {
  import opened WritableSteps

  // ----- counting

  function Flat(calls: seq<seq<Chunk>>): seq<Chunk> { if calls == [] then [] else Flat(calls[..|calls| - 1]) + calls[|calls| - 1] }

  function Sizes(o: Options, cs: seq<Chunk>): nat { if cs == [] then 0 else Size(o, cs[0]) + Sizes(o, cs[1..]) }

  function InFlight(cb: WriteCallback): seq<nat> {
    match cb
    case NoCallback => []
    case One(c) => [c]
    case Group(cs) => cs
  }

  function Extra(cb: WriteCallback): nat { if cb.Group? then 1 else 0 }

  function Promised(due: seq<AfterWrite>): multiset<nat> {
    if due == [] then multiset{} else Promised(due[..|due| - 1]) + multiset(due[|due| - 1].callbacks)
  }

  function Groups(due: seq<AfterWrite>): nat {
    if due == [] then 0 else Groups(due[..|due| - 1]) + if due[|due| - 1].group then 1 else 0
  }

  /** The callbacks of the first `n` writes, each once. */
  function AllCallbacks(n: nat): multiset<nat> { if n == 0 then multiset{} else AllCallbacks(n - 1) + multiset{n - 1} }

  // ----- the invariant

  /**
   * The part that also holds in the middle of a step, with `rest` in the place of the buffer and the callbacks `held`
   * (and `extra` counts besides) still in the hands of a caller: the sink has got a prefix of what was written, the
   * counters count what they should, and every callback is in exactly one place.
   */
  ghost predicate Core(o: Options, s: State, rest: seq<Request>, held: multiset<nat>, extra: nat) {
    && Flat(s.log.calls) + Chunks(rest) == s.log.accepted
    && s.length == s.writelen + Total(o, rest)
    && (s.writing <==> s.writecb != NoCallback)
    && s.writelen == InFlightSize(o, s)
    && (s.writecb.Group? ==> s.writecb.callbacks != [])
    && multiset(s.log.called) + Promised(s.due) + multiset(InFlight(s.writecb)) + multiset(Callbacks(rest)) + held == AllCallbacks(|s.log.accepted|)
    && s.pendingcb == |Promised(s.due)| + Groups(s.due) + |InFlight(s.writecb)| + Extra(s.writecb) + |rest| + |held| + extra
    && (forall k :: 0 <= k < |s.due| ==> DueWell(s, s.due[k]))
    && s.log.finishes == (if s.finished then 1 else 0)
    && (s.finished ==> s.ending && s.pendingcb == 0)
  }

  /** The size of what the sink is working on. */
  function InFlightSize(o: Options, s: State): nat {
    if s.writing && s.log.calls != [] then Sizes(o, s.log.calls[|s.log.calls| - 1]) else 0
  }

  ghost predicate DueWell(s: State, a: AfterWrite) {
    (a.group ==> a.callbacks != []) && (a.finished ==> s.ending)
  }

  ghost predicate SomeUndrained(s: State) { exists k :: 0 <= k < |s.due| && !s.due[k].drained }

  /** What holds between any two steps. */
  ghost predicate Inv(o: Options, s: State) {
    && Core(o, s, s.buffer, multiset{}, 0)
    && !s.bufferProcessing
    && s.ended == s.ending
    && (!s.writing && s.buffer != [] && s.corked == 0 ==> s.ending && Total(o, s.buffer) == 0)
    && (s.ending && !s.finished && !s.writing && s.due == [] ==> s.buffer != [])
    && (s.needDrain && !s.ending && !s.writing && s.buffer == [] ==> SomeUndrained(s))
  }

  /** What the private steps leave alone; the `afterWrite`s they add have not started. */
  ghost predicate Frame(s: State, r: State) {
    && r.ending == s.ending && r.ended == s.ended && r.corked == s.corked && r.needDrain == s.needDrain
    && r.finished == s.finished && r.log.accepted == s.log.accepted && r.bufferProcessing == s.bufferProcessing
    && s.due <= r.due && forall k :: |s.due| <= k < |r.due| ==> !r.due[k].drained
  }

  // ----- lists

  lemma PromisedAppend(due: seq<AfterWrite>, a: AfterWrite)
    ensures Promised(due + [a]) == Promised(due) + multiset(a.callbacks)
    ensures Groups(due + [a]) == Groups(due) + if a.group then 1 else 0
  {
    assert (due + [a])[..|due|] == due;
  }

  lemma Exchange(p: multiset<nat>, q: multiset<nat>, x: multiset<nat>, y: multiset<nat>, z: multiset<nat>)
    requires p + x == q + y
    ensures (p + z) + x == (q + z) + y
  {
    assert (p + z) + x == (p + x) + z;
    assert (q + z) + y == (q + y) + z;
  }

  lemma {:induction false} PromisedUpdate(due: seq<AfterWrite>, k: nat, a: AfterWrite)
    requires k < |due|
    ensures Promised(due[k := a]) + multiset(due[k].callbacks) == Promised(due) + multiset(a.callbacks)
    ensures Groups(due[k := a]) + (if due[k].group then 1 else 0) == Groups(due) + if a.group then 1 else 0
  {
    var n := |due| - 1;
    if k == n {
      assert due[k := a][..n] == due[..n];
    } else {
      PromisedUpdate(due[..n], k, a);
      assert due[k := a][..n] == due[..n][k := a];
      Exchange(Promised(due[..n][k := a]), Promised(due[..n]), multiset(due[k].callbacks), multiset(a.callbacks), multiset(due[n].callbacks));
    }
  }

  lemma Slide(p: multiset<nat>, q: multiset<nat>, x: multiset<nat>, z: multiset<nat>)
    requires p + x == q
    ensures (p + z) + x == q + z
  {
    assert (p + z) + x == (p + x) + z;
  }

  lemma PromisedLast(due: seq<AfterWrite>)
    requires due != []
    ensures Promised(due) == Promised(due[..|due| - 1]) + multiset(due[|due| - 1].callbacks)
    ensures Groups(due) == Groups(due[..|due| - 1]) + if due[|due| - 1].group then 1 else 0
  {
  }

  lemma {:induction false} PromisedRemove(due: seq<AfterWrite>, k: nat)
    requires k < |due|
    ensures Promised(due[..k] + due[k + 1..]) + multiset(due[k].callbacks) == Promised(due)
    ensures Groups(due[..k] + due[k + 1..]) + (if due[k].group then 1 else 0) == Groups(due)
  {
    hide Promised, Groups;
    var n := |due| - 1;
    PromisedLast(due);
    if k == n {
      assert due[..k] + due[k + 1..] == due[..n];
    } else {
      PromisedRemove(due[..n], k);
      var left, less := due[..k] + due[k + 1..], due[..n][..k] + due[..n][k + 1..];
      assert left == less + [due[n]];
      PromisedAppend(less, due[n]);
      Slide(Promised(less), Promised(due[..n]), multiset(due[k].callbacks), multiset(due[n].callbacks));
    }
  }

  lemma FlatAppend(calls: seq<seq<Chunk>>, c: seq<Chunk>)
    ensures Flat(calls + [c]) == Flat(calls) + c
  {
    assert (calls + [c])[..|calls|] == calls;
  }

  lemma ListsAdd(a: seq<Request>, b: seq<Request>)
    ensures Chunks(a + b) == Chunks(a) + Chunks(b) && Callbacks(a + b) == Callbacks(a) + Callbacks(b)
    ensures multiset(Callbacks(a + b)) == multiset(Callbacks(a)) + multiset(Callbacks(b))
  {
  }

  lemma {:induction false} TotalAdd(o: Options, a: seq<Request>, b: seq<Request>)
    ensures Total(o, a + b) == Total(o, a) + Total(o, b)
  {
    if a == [] {
      assert a + b == b;
    } else {
      TotalAdd(o, a[1..], b);
      assert (a + b)[1..] == a[1..] + b;
    }
  }

  lemma {:induction false} TotalSizes(o: Options, b: seq<Request>)
    ensures Total(o, b) == Sizes(o, Chunks(b))
  {
    if b != [] {
      TotalSizes(o, b[1..]);
      assert Chunks(b)[1..] == Chunks(b[1..]);
    }
  }

  // ----- pieces of a step

  /** The state while the sink has the requests `first`. */
  function Taken(o: Options, s: State, first: seq<Request>, cb: WriteCallback): State {
    s.(writelen := Total(o, first), writecb := cb, writing := true, sync := true, log := s.log.(calls := s.log.calls + [Chunks(first)]),
       pendingcb := s.pendingcb + Extra(cb))
  }

  /** Handing requests to the sink. */
  lemma Take(o: Options, s: State, first: seq<Request>, rest: seq<Request>, cb: WriteCallback, held: multiset<nat>, extra: nat)
    requires Core(o, s, first + rest, held, extra) && !s.writing && first != []
    requires cb == Group(Callbacks(first)) || (|first| == 1 && cb == One(first[0].callback))
    ensures Core(o, Taken(o, s, first, cb), rest, held, extra)
  {
    hide Promised, Groups, AllCallbacks, Total, Flat, Sizes, Chunks;
    TotalSizes(o, first);
    ListsAdd(first, rest);
    TotalAdd(o, first, rest);
    FlatAppend(s.log.calls, Chunks(first));
    InHand(first, cb);
    hide Callbacks, InFlight;
  }

  lemma InHand(first: seq<Request>, cb: WriteCallback)
    requires cb == Group(Callbacks(first)) || (|first| == 1 && cb == One(first[0].callback))
    ensures InFlight(cb) == Callbacks(first)
  {
  }

  /** The sink has taken the chunk: its callbacks are in hand. */
  lemma Settle(o: Options, s: State, rest: seq<Request>, held: multiset<nat>, extra: nat)
    requires Core(o, s, rest, held, extra) && s.writing
    ensures Core(o, StateUpdate(s), rest, held + multiset(InFlight(s.writecb)), extra + Extra(s.writecb))
  {
    hide Promised, Groups, AllCallbacks, Total, Flat;
  }

  /** The callbacks in hand go to an `afterWrite`. */
  lemma Put(o: Options, s: State, rest: seq<Request>, held: multiset<nat>, extra: nat, cb: WriteCallback, finished: bool)
    requires Core(o, s, rest, held + multiset(InFlight(cb)), extra + Extra(cb))
    requires (finished ==> s.ending) && (cb.Group? ==> cb.callbacks != [])
    ensures Core(o, s.(due := s.due + [After(cb, finished)]), rest, held, extra)
  {
    hide Promised, Groups, AllCallbacks, Total, Chunks, Callbacks, InFlight, After, Flat, Sizes;
    var due := s.due + [After(cb, finished)];
    HandedOver(s.due, cb, finished, multiset(s.log.called), multiset(InFlight(s.writecb)), multiset(Callbacks(rest)), held);
    forall k | 0 <= k < |due| ensures DueWell(s, due[k]) { WellMade(s, cb, finished); }
  }

  lemma WellMade(s: State, cb: WriteCallback, finished: bool)
    requires (finished ==> s.ending) && (cb.Group? ==> cb.callbacks != [])
    ensures DueWell(s, After(cb, finished))
  {
  }

  lemma HandedOver(due: seq<AfterWrite>, cb: WriteCallback, finished: bool, called: multiset<nat>, f: multiset<nat>, b: multiset<nat>, held: multiset<nat>)
    ensures var p, h := Promised(due + [After(cb, finished)]), held + multiset(InFlight(cb));
            && called + p + f + b + held == called + Promised(due) + f + b + h
            && |p| + |held| == |Promised(due)| + |h|
            && Groups(due + [After(cb, finished)]) == Groups(due) + Extra(cb)
  {
    hide Promised, Groups;
    var a := After(cb, finished);
    PromisedAppend(due, a);
    Regroup(called, Promised(due), f, b, held, multiset(a.callbacks));
  }

  lemma Regroup(m: multiset<nat>, p: multiset<nat>, f: multiset<nat>, b: multiset<nat>, held: multiset<nat>, h: multiset<nat>)
    ensures m + (p + h) + f + b + held == m + p + f + b + (held + h)
    ensures |p + h| == |p| + |h| && |held + h| == |held| + |h|
  {
  }
}

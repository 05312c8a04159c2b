/**
 * The writable side of a stream as a state machine. Public calls, completions of `_write`, and the
 * phases of `afterWrite` are separate steps, so that callbacks and 'drain' listeners may call back in.
 */
module WritableSteps {
  import opened Wrappers

  type Chunk = seq<bv8>

  /** A buffered write. Callbacks are numbered in the order their writes were accepted. */
  datatype Request = Request(chunk: Chunk, callback: nat)

  /** The callback of the write in flight: one write's, or those of a whole buffer. */
  datatype WriteCallback = NoCallback | One(callback: nat) | Group(callbacks: seq<nat>)

  /** An `afterWrite` that is due or under way: whether it found the stream finished, and what it has left to do. */
  datatype AfterWrite = AfterWrite(finished: bool, drained: bool, group: bool, callbacks: seq<nat>)

  datatype Options = Options(highWaterMark: int, objectMode: bool, writev: bool, prompt: nat -> bool)

  /** What has happened: the chunks accepted, the calls of `_write` and `_writev`, the callbacks called, and the events. */
  datatype Log = Log(accepted: seq<Chunk>, calls: seq<seq<Chunk>>, called: seq<nat>, drains: nat, finishes: nat)

  datatype State = State(
    length: int,
    writing: bool,
    corked: nat,
    sync: bool,
    bufferProcessing: bool,
    writecb: WriteCallback,
    writelen: int,
    buffer: seq<Request>,
    pendingcb: int,
    needDrain: bool,
    ending: bool,
    ended: bool,
    finished: bool,
    prefinished: bool,
    due: seq<AfterWrite>,
    log: Log)

  function Initial(): State {
    State(0, false, 0, true, false, NoCallback, 0, [], 0, false, false, false, false, false, [], Log([], [], [], 0, 0))
  }

  // ----- sizes

  function Size(o: Options, c: Chunk): nat { if o.objectMode then 1 else |c| }

  function Total(o: Options, b: seq<Request>): nat { if b == [] then 0 else Size(o, b[0].chunk) + Total(o, b[1..]) }

  function Chunks(b: seq<Request>): (cs: seq<Chunk>)
    ensures |cs| == |b|
  {
    seq(|b|, i requires 0 <= i < |b| => b[i].chunk)
  }

  function Callbacks(b: seq<Request>): (cs: seq<nat>)
    ensures |cs| == |b|
  {
    seq(|b|, i requires 0 <= i < |b| => b[i].callback)
  }

  // ----- the private steps

  predicate NeedFinish(s: State) { s.ending && s.length == 0 && !s.finished && !s.writing }

  function FinishMaybe(s: State): State {
    if !NeedFinish(s) then s
    else if s.pendingcb == 0 then s.(prefinished := true, finished := true, log := s.log.(finishes := s.log.finishes + 1))
    else s.(prefinished := true)
  }

  function StateUpdate(s: State): State {
    s.(writing := false, writecb := NoCallback, length := s.length - s.writelen, writelen := 0)
  }

  function After(cb: WriteCallback, finished: bool): AfterWrite {
    match cb
    case NoCallback => AfterWrite(finished, false, false, [])
    case One(c) => AfterWrite(finished, false, false, [c])
    case Group(cs) => AfterWrite(finished, false, true, cs)
  }

  /** The underlying sink has taken the chunk in flight. */
  function OnWrite(o: Options, s: State): (r: State)
    ensures r.bufferProcessing == s.bufferProcessing
    decreases if s.bufferProcessing then 0 else 1, 2, 0
  {
    var t := StateUpdate(s);
    var finished := NeedFinish(t);
    var u := if !finished && t.corked == 0 && !t.bufferProcessing && t.buffer != [] then ClearBuffer(o, t) else t;
    u.(due := u.due + [After(s.writecb, finished)])
  }

  function Begun(s: State, chunks: seq<Chunk>, len: int, cb: WriteCallback): State {
    s.(writelen := len, writecb := cb, writing := true, sync := true, log := s.log.(calls := s.log.calls + [chunks]))
  }

  /** Hands chunks to the sink, which may report back before it returns. */
  function DoWrite(o: Options, s: State, chunks: seq<Chunk>, len: int, cb: WriteCallback): (r: State)
    ensures r.bufferProcessing == s.bufferProcessing
    decreases if s.bufferProcessing then 0 else 1, 3, 0
  {
    var t := Begun(s, chunks, len, cb);
    (if o.prompt(|s.log.calls|) then OnWrite(o, t) else t).(sync := false)
  }

  /** Writes the buffered requests one by one, up to the first the sink keeps. */
  function WriteEach(o: Options, s: State, rest: seq<Request>): State
    requires s.bufferProcessing
    decreases 0, 4, |rest|
  {
    if rest == [] then s.(buffer := [])
    else
      var t := DoWrite(o, s, [rest[0].chunk], Size(o, rest[0].chunk), One(rest[0].callback));
      if t.writing then t.(buffer := rest[1..]) else WriteEach(o, t, rest[1..])
  }

  /** Writes the whole buffer at once. */
  function WriteAll(o: Options, s: State): State
    requires s.bufferProcessing
    decreases 0, 4, 0
  {
    DoWrite(o, s.(pendingcb := s.pendingcb + 1), Chunks(s.buffer), s.length, Group(Callbacks(s.buffer))).(buffer := [])
  }

  function ClearBuffer(o: Options, s: State): (r: State)
    requires !s.bufferProcessing
    ensures !r.bufferProcessing
    decreases 1, 1, 0
  {
    var t := s.(bufferProcessing := true);
    var u :=
      if o.writev && |s.buffer| > 1 then WriteAll(o, t) else WriteEach(o, t, s.buffer);
    u.(bufferProcessing := false)
  }

  // ----- the public calls

  /** The state once `write` has taken the chunk on the books. */
  function Booked(o: Options, s: State, chunk: Chunk): State {
    var len := Size(o, chunk);
    s.(pendingcb := s.pendingcb + 1, length := s.length + len, log := s.log.(accepted := s.log.accepted + [chunk]),
       needDrain := s.needDrain || s.length + len >= o.highWaterMark)
  }

  function Write(o: Options, s: State, chunk: Chunk): State {
    if s.ended then s else
      var cb := |s.log.accepted|;
      var t := Booked(o, s, chunk);
      if t.writing || t.corked > 0 then t.(buffer := t.buffer + [Request(chunk, cb)])
      else DoWrite(o, t, [chunk], Size(o, chunk), One(cb))
  }

  function Cork(s: State): State { s.(corked := s.corked + 1) }

  function Uncork(o: Options, s: State): State {
    if s.corked == 0 then s else
      var t := s.(corked := s.corked - 1);
      if !t.writing && t.corked == 0 && !t.finished && !t.bufferProcessing && t.buffer != [] then ClearBuffer(o, t) else t
  }

  function End(o: Options, s: State, chunk: Option<Chunk>): State {
    var t := if chunk.Some? then Write(o, s, chunk.value) else s;
    var u := if t.corked > 0 then Uncork(o, t.(corked := 1)) else t;
    if u.ending || u.finished then u else FinishMaybe(u.(ending := true)).(ended := true)
  }

  // ----- the phases of afterWrite

  function Drain(s: State, k: nat): State
    requires k < |s.due|
  {
    var t := s.(due := s.due[k := s.due[k].(drained := true)]);
    if !s.due[k].finished && s.length == 0 && s.needDrain then t.(needDrain := false, log := s.log.(drains := s.log.drains + 1)) else t
  }

  function Callback(s: State, k: nat): State
    requires k < |s.due| && s.due[k].callbacks != []
  {
    var a := s.due[k];
    s.(pendingcb := s.pendingcb - (if a.group then 2 else 1), log := s.log.(called := s.log.called + [a.callbacks[0]]),
       due := s.due[k := a.(group := false, callbacks := a.callbacks[1..])])
  }

  function Finish(s: State, k: nat): State
    requires k < |s.due|
  {
    FinishMaybe(s.(due := s.due[..k] + s.due[k + 1..]))
  }

  // ----- runs

  datatype Event =
    | EWrite(chunk: Chunk)
    | ECork
    | EUncork
    | EEnd(last: Option<Chunk>)
    | EOnWrite
    | EDrain(k: nat)
    | ECallback(k: nat)
    | EFinish(k: nat)

  predicate Enabled(s: State, e: Event) {
    match e
    case EOnWrite => s.writing
    case EDrain(k) => k < |s.due| && !s.due[k].drained
    case ECallback(k) => k < |s.due| && s.due[k].drained && s.due[k].callbacks != []
    case EFinish(k) => k < |s.due| && s.due[k].drained && s.due[k].callbacks == []
    case _ => true
  }

  function Step(o: Options, s: State, e: Event): State
    requires Enabled(s, e)
  {
    match e
    case EWrite(chunk) => Write(o, s, chunk)
    case ECork => Cork(s)
    case EUncork => Uncork(o, s)
    case EEnd(last) => End(o, s, last)
    case EOnWrite => OnWrite(o, s)
    case EDrain(k) => Drain(s, k)
    case ECallback(k) => Callback(s, k)
    case EFinish(k) => Finish(s, k)
  }

  /** The states a stream can get into. */
  ghost predicate Reaches(o: Options, events: seq<Event>, s: State)
    decreases |events|
  {
    if events == [] then s == Initial()
    else
      var before := events[..|events| - 1];
      exists t :: Reaches(o, before, t) && Enabled(t, events[|events| - 1]) && s == Step(o, t, events[|events| - 1])
  }
}

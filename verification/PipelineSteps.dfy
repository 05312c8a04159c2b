/**
 * Pipelined responses on one server connection. Calls by request handlers, the arrival of requests, the end of the
 * client's side and the flush that follows an assignment are separate steps: handlers run in any order, and
 * listeners of 'socket' may write and end before the flush.
 */
module PipelineSteps {
  import opened Sequences
  import opened Wrappers

  type Bytes = seq<char>

  /** What a handler asked a response to send, after its header. */
  datatype Part = Chunk(data: Bytes) | Terminator

  /** What the handler and its request decide about a response's header. `header` ends with the empty line. */
  datatype Plan = Plan(header: Bytes, trailer: Bytes, chunked: bool, hasBody: bool, last: bool)

  datatype Response = Response(
    plan: Plan,
    headerSet: bool,
    headerSent: bool,
    finished: bool,
    last: bool,
    attached: bool,
    output: seq<Bytes>,
    parts: seq<Part>,
    served: bool)

  /** `done` counts the responses that have had the socket and given it back, `closed` says that one of them was the last. */
  datatype State = State(
    responses: seq<Response>,
    httpMessage: Option<nat>,
    outgoing: seq<nat>,
    incoming: seq<nat>,
    writable: bool,
    inputEnded: bool,
    wire: Bytes,
    flushes: seq<nat>,
    done: nat,
    closed: bool,
    broken: bool)

  function Initial(): State { State([], None, [], [], true, false, "", [], 0, false, false) }

  const CRLF: Bytes := "\r\n"

  function Digit(n: nat): char
    requires n < 16
  {
    "0123456789abcdef"[n]
  }

  function Hex(n: nat): Bytes { if n < 16 then [Digit(n)] else Hex(n / 16) + [Digit(n % 16)] }

  // ----- the outgoing message

  function Put(s: State, i: nat, r: Response): State
    requires i < |s.responses|
  {
    s.(responses := s.responses[i := r])
  }

  function WriteRaw(s: State, i: nat, data: Bytes): State
    requires i < |s.responses|
  {
    var r := s.responses[i];
    if data == "" then s
    else if r.attached && s.httpMessage == Some(i) && s.writable then
      Put(s, i, r.(output := [])).(wire := s.wire + Concat(r.output) + data)
    else Put(s, i, r.(output := r.output + [data]))
  }

  /** The header goes out in front of the first text, or by itself in front of the first bytes. */
  function Send(s: State, i: nat, data: Bytes, text: bool): (t: State)
    requires i < |s.responses|
    ensures |t.responses| == |s.responses|
  {
    var r := s.responses[i];
    if r.headerSent then WriteRaw(s, i, data)
    else if text then WriteRaw(Put(s, i, r.(headerSent := true)), i, r.plan.header + data)
    else WriteRaw(Put(s, i, r.(headerSent := true, output := [r.plan.header] + r.output)), i, data)
  }

  function WriteHead(s: State, i: nat): (t: State)
    requires i < |s.responses|
    ensures |t.responses| == |s.responses|
  {
    var r := s.responses[i];
    if r.headerSet then s else Put(s, i, r.(headerSet := true, last := r.last || r.plan.last))
  }

  /** Keeps the books on what a handler asked for, as long as the response is not over. */
  function Note(s: State, i: nat, part: Part): State
    requires i < |s.responses|
  {
    var r := s.responses[i];
    if r.served then s else Put(s, i, r.(parts := r.parts + [part]))
  }

  function SendChunk(s: State, i: nat, data: Bytes, text: bool): (t: State)
    requires i < |s.responses|
    ensures |t.responses| == |s.responses|
  {
    if !s.responses[i].plan.chunked then Send(s, i, data, text)
    else if text then Send(s, i, Hex(|data|) + CRLF + data + CRLF, true)
    else Send(Send(Send(Send(s, i, Hex(|data|), true), i, CRLF, false), i, data, false), i, CRLF, false)
  }

  function Write(s: State, i: nat, data: Bytes, text: bool): (t: State)
    requires i < |s.responses|
    ensures |t.responses| == |s.responses|
  {
    var t := WriteHead(s, i);
    if !t.responses[i].plan.hasBody || data == "" then t else SendChunk(Note(t, i, Chunk(data)), i, data, text)
  }

  function End(s: State, i: nat, data: Bytes, text: bool): State
    requires i < |s.responses|
  {
    if s.responses[i].finished then s else
      var t := WriteHead(s, i);
      var u := if data != "" && t.responses[i].plan.hasBody then Write(t, i, data, text) else t;
      var p := u.responses[i].plan;
      var v := Send(Note(u, i, Terminator), i, if p.chunked then "0\r\n" + p.trailer + CRLF else "", true);
      var w := Put(v, i, v.responses[i].(finished := true));
      if w.responses[i].output != [] then w
      else if !w.responses[i].attached then w.(broken := true)
      else if w.httpMessage == Some(i) then Finish(w, i) else w
  }

  // ----- the connection

  /** Hands the socket to response `i`; its flush is due. */
  function AssignSocket(s: State, i: nat): State
    requires i < |s.responses|
  {
    Put(s, i, s.responses[i].(attached := true)).(httpMessage := Some(i), flushes := s.flushes + [i], broken := s.broken || s.httpMessage.Some?)
  }

  function DetachSocket(s: State, i: nat): State
    requires i < |s.responses|
  {
    Put(s, i, s.responses[i].(attached := false, served := true)).(httpMessage := None, done := s.done + 1, broken := s.broken || s.httpMessage != Some(i))
  }

  /** Response `i` is complete: the next one gets the socket, unless this was the last. */
  function Finish(s: State, i: nat): State
    requires i < |s.responses|
  {
    var t := s.(broken := s.broken || !(s.incoming == [] || s.incoming[0] == i),
                incoming := if s.incoming == [] then [] else s.incoming[1..]);
    var u := DetachSocket(t, i);
    if u.responses[i].last then u.(writable := false, closed := true)
    else if u.outgoing == [] then u
    else if u.outgoing[0] < |u.responses| then AssignSocket(u.(outgoing := u.outgoing[1..]), u.outgoing[0])
    else u.(broken := true)
  }

  /** The flush after an assignment, if the response still has the socket. */
  function Flush(s: State, k: nat): State
    requires k < |s.flushes|
  {
    var i := s.flushes[k];
    var t := s.(flushes := s.flushes[..k] + s.flushes[k + 1..]);
    if i >= |s.responses| || !s.responses[i].attached || !s.writable then t
    else
      var r := t.responses[i];
      var u := Put(t, i, r.(output := [])).(wire := t.wire + Concat(r.output));
      if r.finished then Finish(u, i) else u
  }

  function Incoming(s: State, plan: Plan): State {
    var i := |s.responses|;
    var t := s.(responses := s.responses + [Response(plan, false, false, false, false, false, [], [], false)], incoming := s.incoming + [i]);
    if t.httpMessage.Some? then t.(outgoing := t.outgoing + [i]) else AssignSocket(t, i)
  }

  /** The client has ended its side. */
  function SocketEnd(s: State, halfOpen: bool): State {
    var t := s.(inputEnded := true);
    if !halfOpen then t.(incoming := [], writable := false)
    else if t.outgoing != [] then MarkLast(t, t.outgoing[|t.outgoing| - 1])
    else if t.httpMessage.Some? then MarkLast(t, t.httpMessage.value)
    else t.(writable := false)
  }

  function MarkLast(s: State, i: nat): State {
    if i < |s.responses| then Put(s, i, s.responses[i].(last := true)) else s
  }

  // ----- runs

  datatype Event =
    | ERequest(plan: Plan)
    | EHead(i: nat)
    | EWrite(i: nat, data: Bytes, text: bool)
    | EEnd(i: nat, data: Bytes, text: bool)
    | EFlush(k: nat)
    | ESocketEnd(halfOpen: bool)

  predicate Enabled(s: State, e: Event) {
    match e
    case ERequest(plan) => !s.inputEnded && plan.header != ""
    case EHead(i) => i < |s.responses|
    case EWrite(i, _, _) => i < |s.responses|
    case EEnd(i, _, _) => i < |s.responses|
    case EFlush(k) => k < |s.flushes|
    case ESocketEnd(_) => !s.inputEnded
  }

  function Step(s: State, e: Event): State
    requires Enabled(s, e)
  {
    match e
    case ERequest(plan) => Incoming(s, plan)
    case EHead(i) => WriteHead(s, i)
    case EWrite(i, data, text) => Write(s, i, data, text)
    case EEnd(i, data, text) => End(s, i, data, text)
    case EFlush(k) => Flush(s, k)
    case ESocketEnd(halfOpen) => SocketEnd(s, halfOpen)
  }

  ghost predicate Reaches(events: seq<Event>, s: State)
    decreases |events|
  {
    if events == [] then s == Initial()
    else
      var n := |events| - 1;
      exists t :: Reaches(events[..n], t) && Enabled(t, events[n]) && s == Step(t, events[n])
  }
}

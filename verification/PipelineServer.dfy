/** The connection's variables and its responses: every method does to them what the step of the same name does to the state. */
module PipelineServer {
  import opened Sequences
  import opened Wrappers
  import opened PipelineSteps
  import opened PipelineSafety
  import opened PipelineRuns

  class Connection {
    var responses: seq<Response>
    /** The response that `_httpMessage` points to. */
    var httpMessage: Option<nat>
    var outgoing: seq<nat>
    var incoming: seq<nat>
    var writable: bool
    var inputEnded: bool
    var wire: Bytes
    /** The flushes that assignments have promised. */
    var flushes: seq<nat>
    var done: nat
    var closed: bool
    var broken: bool

    constructor ()
      ensures Now() == Initial() && Inv(Now())
    {
      responses, httpMessage, outgoing, incoming, writable, inputEnded := [], None, [], [], true, false;
      wire, flushes, done, closed, broken := "", [], 0, false, false;
      new;
      InitialInv();
    }

    /** The state the fields make up. */
    function Now(): State
      reads this
    {
      State(responses, httpMessage, outgoing, incoming, writable, inputEnded, wire, flushes, done, closed, broken)
    }

    // ----- the outgoing message

    /** Sends what the response has kept, piece by piece. */
    method Drain(i: nat)
      requires i < |responses|
      modifies `responses, `wire
      ensures responses == old(responses)[i := old(responses)[i].(output := [])]
      ensures wire == old(wire) + Concat(old(responses)[i].output)
    {
      ghost var r := responses[i];
      while responses[i].output != []
        invariant i < |responses| && responses == old(responses)[i := r.(output := responses[i].output)]
        invariant wire + Concat(responses[i].output) == old(wire) + Concat(r.output)
        decreases |responses[i].output|
      {
        var piece := responses[i].output[0];
        ghost var rest := responses[i].output[1..];
        assert (wire + piece) + Concat(rest) == wire + (piece + Concat(rest));
        responses := responses[i := responses[i].(output := responses[i].output[1..])];
        wire := wire + piece;
      }
      assert wire + "" == wire;
    }

    method WriteRaw(i: nat, data: Bytes)
      requires i < |responses|
      modifies `responses, `wire
      ensures Now() == PipelineSteps.WriteRaw(old(Now()), i, data)
    {
      hide Concat;
      if data == "" {
        return;
      }
      if responses[i].attached && httpMessage == Some(i) && writable {
        Drain(i);
        wire := wire + data;
      } else {
        responses := responses[i := responses[i].(output := responses[i].output + [data])];
      }
    }

    method Send(i: nat, data: Bytes, text: bool)
      requires i < |responses|
      modifies `responses, `wire
      ensures Now() == PipelineSteps.Send(old(Now()), i, data, text) && |responses| == |old(responses)|
    {
      hide PipelineSteps.WriteRaw;
      var r := responses[i];
      if r.headerSent {
        WriteRaw(i, data);
      } else if text {
        responses := responses[i := r.(headerSent := true)];
        WriteRaw(i, r.plan.header + data);
      } else {
        responses := responses[i := r.(headerSent := true, output := [r.plan.header] + r.output)];
        WriteRaw(i, data);
      }
    }

    method SetHead(i: nat)
      requires i < |responses|
      modifies `responses
      ensures Now() == PipelineSteps.WriteHead(old(Now()), i) && |responses| == |old(responses)|
    {
      var r := responses[i];
      if !r.headerSet {
        responses := responses[i := r.(headerSet := true, last := r.last || r.plan.last)];
      }
    }

    method TakeDown(i: nat, part: Part)
      requires i < |responses|
      modifies `responses
      ensures Now() == Note(old(Now()), i, part) && |responses| == |old(responses)|
    {
      var r := responses[i];
      if !r.served {
        responses := responses[i := r.(parts := r.parts + [part])];
      }
    }

    method SendChunk(i: nat, data: Bytes, text: bool)
      requires i < |responses|
      modifies `responses, `wire
      ensures Now() == PipelineSteps.SendChunk(old(Now()), i, data, text) && |responses| == |old(responses)|
    {
      hide PipelineSteps.Send, Hex;
      if !responses[i].plan.chunked {
        Send(i, data, text);
      } else if text {
        Send(i, Hex(|data|) + CRLF + data + CRLF, true);
      } else {
        Send(i, Hex(|data|), true);
        Send(i, CRLF, false);
        Send(i, data, false);
        Send(i, CRLF, false);
      }
    }

    method WriteBody(i: nat, data: Bytes, text: bool)
      requires i < |responses|
      modifies `responses, `wire
      ensures Now() == PipelineSteps.Write(old(Now()), i, data, text) && |responses| == |old(responses)|
    {
      hide PipelineSteps.SendChunk, PipelineSteps.WriteHead, Note;
      SetHead(i);
      if !responses[i].plan.hasBody || data == "" {
        return;
      }
      TakeDown(i, Chunk(data));
      SendChunk(i, data, text);
    }

    method EndBody(i: nat, data: Bytes, text: bool)
      requires i < |responses|
      modifies `responses, `wire
      ensures Now() == Ended(old(Now()), i, data, text) && |responses| == |old(responses)|
    {
      hide PipelineSteps.Send, PipelineSteps.WriteHead, PipelineSteps.Write, Note;
      SetHead(i);
      if data != "" && responses[i].plan.hasBody {
        WriteBody(i, data, text);
      }
      var plan := responses[i].plan;
      TakeDown(i, Terminator);
      if plan.chunked {
        Send(i, "0\r\n" + plan.trailer + CRLF, true);
      } else {
        Send(i, "", true);
      }
      responses := responses[i := responses[i].(finished := true)];
    }

    // ----- the connection

    method AssignSocket(i: nat)
      requires i < |responses|
      modifies `responses, `httpMessage, `flushes, `broken
      ensures Now() == PipelineSteps.AssignSocket(old(Now()), i)
    {
      broken := broken || httpMessage.Some?;
      httpMessage := Some(i);
      responses := responses[i := responses[i].(attached := true)];
      flushes := flushes + [i];
    }

    method DetachSocket(i: nat)
      requires i < |responses|
      modifies `responses, `httpMessage, `done, `broken
      ensures Now() == PipelineSteps.DetachSocket(old(Now()), i) && |responses| == |old(responses)|
    {
      broken := broken || httpMessage != Some(i);
      httpMessage := None;
      responses := responses[i := responses[i].(attached := false, served := true)];
      done := done + 1;
    }

    method ShiftIncoming(i: nat)
      modifies `incoming, `broken
      ensures broken == (old(broken) || !(old(incoming) == [] || old(incoming)[0] == i))
      ensures incoming == if old(incoming) == [] then [] else old(incoming)[1..]
    {
      broken := broken || !(incoming == [] || incoming[0] == i);
      if incoming != [] {
        incoming := incoming[1..];
      }
    }

    /** The 'prefinish' listener of response `i`. */
    method OnFinish(i: nat)
      requires i < |responses|
      modifies this
      ensures Now() == Finish(old(Now()), i)
    {
      hide PipelineSteps.DetachSocket, NextMessage;
      FinishIs(Now(), i);
      ShiftIncoming(i);
      DetachSocket(i);
      SendNext(i);
    }

    /** Closes the connection after its last response, or starts sending the next message. */
    method SendNext(i: nat)
      requires i < |responses|
      modifies this
      ensures Now() == NextMessage(old(Now()), i)
    {
      hide PipelineSteps.AssignSocket;
      if responses[i].last {
        writable := false;
        closed := true;
      } else if outgoing != [] {
        var next := outgoing[0];
        if next < |responses| {
          outgoing := outgoing[1..];
          AssignSocket(next);
        } else {
          broken := true;
        }
      }
    }

    // ----- the calls from outside

    method OnIncoming(plan: Plan)
      requires Inv(Now()) && !inputEnded && plan.header != ""
      modifies this
      ensures Now() == Incoming(old(Now()), plan) && Inv(Now())
    {
      hide Inv, PipelineSteps.AssignSocket;
      IncomingInv(Now(), plan);
      var i := |responses|;
      incoming := incoming + [i];
      responses := responses + [Response(plan, false, false, false, false, false, [], [], false)];
      if httpMessage.Some? {
        outgoing := outgoing + [i];
      } else {
        AssignSocket(i);
      }
    }

    method WriteHead(i: nat)
      requires Inv(Now()) && i < |responses|
      modifies `responses
      ensures Now() == PipelineSteps.WriteHead(old(Now()), i) && Inv(Now())
    {
      hide Inv, PipelineSteps.WriteHead;
      WriteHeadInv(Now(), i);
      SetHead(i);
    }

    method Write(i: nat, data: Bytes, text: bool)
      requires Inv(Now()) && i < |responses|
      modifies `responses, `wire
      ensures Now() == PipelineSteps.Write(old(Now()), i, data, text) && Inv(Now())
    {
      hide Inv, PipelineSteps.Write;
      WriteStepInv(Now(), i, data, text);
      WriteBody(i, data, text);
    }

    method End(i: nat, data: Bytes, text: bool)
      requires Inv(Now()) && i < |responses|
      modifies this
      ensures Now() == PipelineSteps.End(old(Now()), i, data, text) && Inv(Now())
    {
      hide Inv, Ended, Finish;
      EndInv(Now(), i, data, text);
      if responses[i].finished {
        return;
      }
      EndIs(Now(), i, data, text);
      EndBody(i, data, text);
      if responses[i].output == [] {
        if !responses[i].attached {
          broken := true;
        } else if httpMessage == Some(i) {
          OnFinish(i);
        }
      }
    }

    method FlushDueNow(k: nat)
      requires Inv(Now()) && k < |flushes|
      modifies this
      ensures Now() == Flush(old(Now()), k) && Inv(Now())
    {
      hide Inv, Finish, Concat;
      FlushInv(Now(), k);
      var i := flushes[k];
      flushes := flushes[..k] + flushes[k + 1..];
      if i < |responses| && responses[i].attached && writable {
        Drain(i);
        if responses[i].finished {
          OnFinish(i);
        }
      }
    }

    method OnEnd(halfOpen: bool)
      requires Inv(Now()) && !inputEnded
      modifies this
      ensures Now() == SocketEnd(old(Now()), halfOpen) && Inv(Now())
    {
      hide Inv;
      SocketEndInv(Now(), halfOpen);
      inputEnded := true;
      if !halfOpen {
        incoming := [];
        writable := false;
      } else if outgoing != [] {
        SetLast(outgoing[|outgoing| - 1]);
      } else if httpMessage.Some? {
        SetLast(httpMessage.value);
      } else {
        writable := false;
      }
    }

    method SetLast(i: nat)
      modifies `responses
      ensures Now() == MarkLast(old(Now()), i)
    {
      if i < |responses| {
        responses := responses[i := responses[i].(last := true)];
      }
    }
  }

  /** What follows once response `i` has given the socket back. */
  function NextMessage(u: State, i: nat): State
    requires i < |u.responses|
  {
    if u.responses[i].last then u.(writable := false, closed := true)
    else if u.outgoing == [] then u
    else if u.outgoing[0] < |u.responses| then PipelineSteps.AssignSocket(u.(outgoing := u.outgoing[1..]), u.outgoing[0])
    else u.(broken := true)
  }

  lemma FinishIs(s: State, i: nat)
    requires i < |s.responses|
    ensures var t := s.(broken := s.broken || !(s.incoming == [] || s.incoming[0] == i),
                        incoming := if s.incoming == [] then [] else s.incoming[1..]);
            |PipelineSteps.DetachSocket(t, i).responses| == |s.responses| && Finish(s, i) == NextMessage(PipelineSteps.DetachSocket(t, i), i)
  {
    hide PipelineSteps.AssignSocket;
  }
}

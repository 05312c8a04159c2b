/** The stream object: every method does to the fields what the step of the same name does to the state. */
module WritableStream {
  import opened Wrappers
  import opened WritableSteps
  import opened WritableSafety
  import opened WritableRuns

  class Writable {
    const options: Options
    var length: int
    var writing: bool
    var corked: nat
    var sync: bool
    var bufferProcessing: bool
    var writecb: WriteCallback
    var writelen: int
    var buffer: seq<Request>
    var pendingcb: int
    var needDrain: bool
    var ending: bool
    var ended: bool
    var finished: bool
    var prefinished: bool
    /** The calls of `afterWrite` that are due or under way. */
    var due: seq<AfterWrite>
    var log: Log

    constructor (options: Options)
      ensures this.options == options && Now() == Initial() && Inv(options, Now())
    {
      this.options := options;
      length, writing, corked, sync, bufferProcessing, writecb, writelen, buffer := 0, false, 0, true, false, NoCallback, 0, [];
      pendingcb, needDrain, ending, ended, finished, prefinished := 0, false, false, false, false, false;
      due, log := [], Log([], [], [], 0, 0);
      new;
      InitialInv(options);
    }

    /** The state the fields make up. */
    function Now(): State
      reads this
    {
      State(length, writing, corked, sync, bufferProcessing, writecb, writelen, buffer, pendingcb, needDrain, ending, ended, finished, prefinished,
            due, log)
    }

    // ----- private

    /** The fields while the sink has `chunks`. */
    method Begin(chunks: seq<Chunk>, len: int, cb: WriteCallback)
      modifies `writelen, `writecb, `writing, `sync, `log
      ensures Now() == Begun(old(Now()), chunks, len, cb)
    {
      writelen := len;
      writecb := cb;
      writing := true;
      sync := true;
      log := log.(calls := log.calls + [chunks]);
    }

    method DoWrite(chunks: seq<Chunk>, len: int, cb: WriteCallback)
      modifies this
      ensures Now() == WritableSteps.DoWrite(options, old(Now()), chunks, len, cb)
      decreases if bufferProcessing then 0 else 1, 3, 0
    {
      hide WritableSteps.ClearBuffer, OnWrite;
      var call := |log.calls|;
      Begin(chunks, len, cb);
      if options.prompt(call) {
        OnWriteDone();
      }
      sync := false;
    }

    method StateUpdate()
      modifies `writing, `writecb, `length, `writelen
      ensures Now() == WritableSteps.StateUpdate(old(Now()))
    {
      writing := false;
      writecb := NoCallback;
      length := length - writelen;
      writelen := 0;
    }

    /** The `onwrite` callback. What `afterWrite` does next is a matter of later steps. */
    method OnWriteDone()
      modifies this
      ensures Now() == OnWrite(options, old(Now()))
      decreases if bufferProcessing then 0 else 1, 2, 0
    {
      hide WritableSteps.ClearBuffer, WritableSteps.DoWrite;
      var cb := writecb;
      StateUpdate();
      var done := NeedFinish(Now());
      if !done && corked == 0 && !bufferProcessing && buffer != [] {
        ClearBuffer();
      }
      due := due + [After(cb, done)];
    }

    method ClearBuffer()
      requires !bufferProcessing
      modifies this
      ensures Now() == WritableSteps.ClearBuffer(options, old(Now()))
      decreases 1, 1, 0
    {
      hide WriteEach, WritableSteps.WriteAll;
      bufferProcessing := true;
      WorkOff();
      bufferProcessing := false;
    }

    method WorkOff()
      requires bufferProcessing
      modifies this
      ensures Now() == if options.writev && |old(buffer)| > 1 then WritableSteps.WriteAll(options, old(Now())) else WriteEach(options, old(Now()), old(buffer))
      decreases 0, 5, 0
    {
      hide WriteEach, WritableSteps.WriteAll;
      if options.writev && |buffer| > 1 {
        WriteAll();
      } else {
        WriteOneByOne();
      }
    }

    /** The fast case: everything in one `_writev`. */
    method WriteAll()
      requires bufferProcessing
      modifies this
      ensures Now() == WritableSteps.WriteAll(options, old(Now()))
      decreases 0, 4, 0
    {
      hide OnWrite, WritableSteps.DoWrite;
      var callbacks := Callbacks(buffer);
      pendingcb := pendingcb + 1;
      DoWrite(Chunks(buffer), length, Group(callbacks));
      buffer := [];
    }

    /** The slow case: chunk by chunk, until the sink keeps one. */
    method WriteOneByOne()
      requires bufferProcessing
      modifies this
      ensures Now() == WriteEach(options, old(Now()), old(buffer))
      decreases 0, 4, 0
    {
      hide OnWrite, WritableSteps.DoWrite;
      var requests := buffer;
      var c := 0;
      var kept := false;
      while c < |requests| && !kept
        invariant 0 <= c <= |requests| && bufferProcessing
        invariant kept ==> c > 0
        invariant if kept then WriteEach(options, old(Now()), requests) == Now().(buffer := requests[c..])
                  else WriteEach(options, old(Now()), requests) == WriteEach(options, Now(), requests[c..])
        decreases |requests| - c, !kept
      {
        var entry := requests[c];
        assert requests[c..][0] == entry && requests[c..][1..] == requests[c + 1..];
        DoWrite([entry.chunk], Size(options, entry.chunk), One(entry.callback));
        c := c + 1;
        kept := writing;
      }
      if c < |requests| {
        buffer := requests[c..];
      } else {
        buffer := [];
      }
    }

    method FinishMaybe()
      modifies `prefinished, `finished, `log
      ensures Now() == WritableSteps.FinishMaybe(old(Now()))
    {
      if NeedFinish(Now()) {
        if pendingcb == 0 {
          prefinished := true;
          finished := true;
          log := log.(finishes := log.finishes + 1);
        } else {
          prefinished := true;
        }
      }
    }

    // ----- public

    /** Returns whether the writer may go on without waiting for 'drain'. */
    method Write(chunk: Chunk) returns (more: bool)
      requires Inv(options, Now())
      modifies this
      ensures Now() == WritableSteps.Write(options, old(Now()), chunk) && Inv(options, Now())
      ensures more <==> !old(ended) && old(length) + Size(options, chunk) < options.highWaterMark
    {
      hide WritableSteps.DoWrite, Inv, Booked;
      WriteInv(options, Now(), chunk);
      if ended {
        return false;
      }
      var cb := |log.accepted|;
      more := Book(chunk);
      BookedKeeps(options, old(Now()), chunk);
      if writing || corked > 0 {
        buffer := buffer + [Request(chunk, cb)];
      } else {
        DoWrite([chunk], Size(options, chunk), One(cb));
      }
    }

    /** Takes the chunk on the books. */
    method Book(chunk: Chunk) returns (more: bool)
      modifies `pendingcb, `length, `needDrain, `log
      ensures Now() == Booked(options, old(Now()), chunk)
      ensures more <==> length < options.highWaterMark
    {
      pendingcb := pendingcb + 1;
      log := log.(accepted := log.accepted + [chunk]);
      length := length + Size(options, chunk);
      more := length < options.highWaterMark;
      needDrain := needDrain || !more;
    }

    method Cork()
      requires Inv(options, Now())
      modifies `corked
      ensures Now() == WritableSteps.Cork(old(Now())) && Inv(options, Now())
    {
      hide Inv;
      CorkInv(options, Now());
      corked := corked + 1;
    }

    method Uncork()
      requires Inv(options, Now())
      modifies this
      ensures Now() == WritableSteps.Uncork(options, old(Now())) && Inv(options, Now())
    {
      hide WritableSteps.ClearBuffer, Inv;
      UncorkInv(options, Now());
      if corked > 0 {
        corked := corked - 1;
        if !writing && corked == 0 && !finished && !bufferProcessing && buffer != [] {
          ClearBuffer();
        }
      }
    }

    method End(last: Option<Chunk>)
      requires Inv(options, Now())
      modifies this
      ensures Now() == WritableSteps.End(options, old(Now()), last) && Inv(options, Now())
      ensures ended && corked == 0
    {
      hide Inv, WritableSteps.Write, WritableSteps.Uncork, WritableSteps.FinishMaybe;
      EndInv(options, Now(), last);
      if last.Some? {
        var more := Write(last.value);
      }
      FullyUncork();
      if !ending && !finished {
        EndWritable();
      }
    }

    method FullyUncork()
      requires Inv(options, Now())
      modifies this
      ensures var s := old(Now()); Now() == if s.corked > 0 then WritableSteps.Uncork(options, s.(corked := 1)) else s
    {
      hide Inv, WritableSteps.Uncork;
      if corked > 0 {
        RecorkInv(options, Now());
        corked := 1;
        Uncork();
      }
    }

    method EndWritable()
      modifies `ending, `ended, `prefinished, `finished, `log
      ensures Now() == WritableSteps.FinishMaybe(old(Now()).(ending := true)).(ended := true)
    {
      hide WritableSteps.FinishMaybe;
      ending := true;
      FinishMaybe();
      ended := true;
    }

    /** The sink reports that it has taken the chunk. */
    method Completed()
      requires Inv(options, Now()) && writing
      modifies this
      ensures Now() == OnWrite(options, old(Now())) && Inv(options, Now())
    {
      hide Inv, OnWrite;
      OnWriteInv(options, Now());
      OnWriteDone();
    }

    // ----- the phases of afterWrite

    method OnWriteDrain(k: nat)
      requires Inv(options, Now()) && Enabled(Now(), EDrain(k))
      modifies `due, `needDrain, `log
      ensures Now() == Drain(old(Now()), k) && Inv(options, Now())
    {
      hide Inv, Drain;
      DrainInv(options, Now(), k);
      EmitDrain(k);
    }

    method EmitDrain(k: nat)
      requires k < |due|
      modifies `due, `needDrain, `log
      ensures Now() == Drain(old(Now()), k)
    {
      var a := due[k];
      due := due[k := a.(drained := true)];
      if !a.finished && length == 0 && needDrain {
        needDrain := false;
        log := log.(drains := log.drains + 1);
      }
    }

    method CallNext(k: nat)
      requires Inv(options, Now()) && Enabled(Now(), ECallback(k))
      modifies `due, `pendingcb, `log
      ensures Now() == Callback(old(Now()), k) && Inv(options, Now())
    {
      hide Inv, Callback;
      CallbackInv(options, Now(), k);
      Call(k);
    }

    method Call(k: nat)
      requires k < |due| && due[k].callbacks != []
      modifies `due, `pendingcb, `log
      ensures Now() == Callback(old(Now()), k)
    {
      var a := due[k];
      pendingcb := pendingcb - (if a.group then 2 else 1);
      log := log.(called := log.called + [a.callbacks[0]]);
      due := due[k := a.(group := false, callbacks := a.callbacks[1..])];
    }

    method AfterCallbacks(k: nat)
      requires Inv(options, Now()) && Enabled(Now(), EFinish(k))
      modifies `due, `prefinished, `finished, `log
      ensures Now() == Finish(old(Now()), k) && Inv(options, Now())
    {
      hide Inv, WritableSteps.FinishMaybe;
      FinishInv(options, Now(), k);
      due := due[..k] + due[k + 1..];
      FinishMaybe();
    }
  }
}

/**
 * A PassThrough stream: both halves, the transform between them, and the ticks they schedule. Everything that Node runs
 * synchronously runs in one call here; ticks run later, in any order. Listeners told on a tick may call the stream back;
 * those told in the middle of a call only take note, and do what they do to the stream in a later step.
 */
module PassThroughStream {
  import opened Sequences
  import opened Wrappers
  import opened PassThroughBuffer

  datatype WritableState = WritableState(
    length: int, writing: bool, corked: nat, sync: bool, bufferProcessing: bool, writelen: int, buffer: seq<Bytes>,
    pendingcb: int, ending: bool, ended: bool, finished: bool, prefinished: bool)

  datatype ReadableState = ReadableState(
    highWaterMark: nat, buffer: seq<Bytes>, length: int, flowing: bool, ended: bool, endEmitted: bool, reading: bool,
    sync: bool, needReadable: bool, emittedReadable: bool, readingMore: bool, readableListening: bool)

  datatype TransformState = TransformState(needTransform: bool, transforming: bool, writecb: bool, writechunk: Option<Bytes>)

  /** Scheduled ticks: `afterWrite`, `emitReadable_`, the end event, `resume_`, and the read that a new listener starts. */
  datatype Ticks = Ticks(afterWrites: nat, emits: nat, ends: nat, resumes: nat, starts: nat)

  datatype Fixed = Fixed(flowing: bool, listening: bool, corked: nat, ending: bool, ended: bool, processing: bool, written: seq<Bytes>)

  /** What a listener may call. */
  datatype Call = CallRead(n: Option<int>) | CallWrite(chunk: Bytes) | CallEnd(last: Option<Bytes>) | CallCork | CallUncork | CallPause | CallResume | CallOnReadable

  /** What a reader knows that waits to be told of data: how much there was, and how often it had been told or was going to be. */
  datatype Ask = Ask(length: int, announced: nat)

  function Total(chunks: seq<Bytes>): nat { |Concat(chunks)| }

  function From(buffer: seq<Bytes>, k: nat): seq<Bytes> { if k <= |buffer| then buffer[k..] else [] }

  class PassThrough {
    var ws: WritableState
    var rs: ReadableState
    var ts: TransformState
    var ticks: Ticks
    /** How much of the write buffer has been handed on while it is being worked off. */
    ghost var handed: nat
    /** The chunks accepted, the chunks transformed, and the bytes given to the reader. */
    ghost var written: seq<Bytes>
    ghost var transformed: seq<Bytes>
    ghost var delivered: Bytes
    /** How often 'readable' has been emitted, and the reader that waits for it. */
    ghost var told: nat
    ghost var asked: Option<Ask>

    constructor (writableMark: nat, readableMark: nat)
      ensures Valid() && written == [] && rs.highWaterMark == readableMark
    {
      ws := WritableState(0, false, 0, true, false, 0, [], 0, false, false, false, false);
      rs := ReadableState(readableMark, [], 0, false, false, false, false, false, true, false, false, false);
      ts := TransformState(false, false, false, None);
      ticks := Ticks(0, 0, 0, 0, 0);
      handed, written, transformed, delivered, told, asked := 0, [], [], [], 0, Some(Ask(0, 0));
    }

    // ----- invariants

    ghost function Unsent(): seq<Bytes>
      reads `ws, `handed
    {
      From(ws.buffer, handed)
    }

    /** The chunks that have not been transformed. */
    ghost function Waiting(): nat
      reads `ws, `handed, `ts
    {
      |Unsent()| + if ts.writechunk.Some? then 1 else 0
    }

    /** Every chunk accepted has been transformed, is about to be, or is in the write buffer, once and in order. */
    ghost predicate ChunksKept()
      reads `ws, `handed, `ts, `transformed, `written
    {
      transformed + (if ts.writechunk.Some? then [ts.writechunk.value] else []) + Unsent() == written
    }

    /** Every transformed byte has been delivered or is in the read buffer, in order, but for those in `hand`. */
    ghost predicate BytesKept(hand: Bytes)
      reads `rs, `delivered, `transformed
    {
      && delivered + Concat(rs.buffer) + hand == Concat(transformed)
      && rs.length == |Concat(rs.buffer)| && Filled(rs.buffer)
    }

    /** Counters and flags of the writable side. */
    ghost predicate WritableWell()
      reads `ws, `handed, `ts
    {
      && handed <= |ws.buffer| && (!ws.bufferProcessing ==> handed == 0)
      && ws.length == ws.writelen + Total(Unsent())
      && ws.writelen >= 0
      && (!ws.writing ==> ws.writelen == 0)
      && (ts.writecb <==> ts.writechunk.Some?)
      && (ts.writechunk.Some? ==> ws.writing && ws.writelen == |ts.writechunk.value|)
      && (ws.prefinished ==> ws.ending && ws.length == 0)
      && (ws.finished ==> ws.prefinished)
    }

    /** Nothing is left in the write buffer that no completion will pick up. */
    ghost predicate NothingLeft()
      reads `ws, `handed
    {
      !ws.writing && !ws.bufferProcessing && Unsent() != [] ==> ws.corked > 0 || (ws.ending && Total(Unsent()) == 0)
    }

    /** How often the reader has been told of data or is going to be. */
    ghost function Announced(): nat
      reads `ticks, `told
    {
      told + ticks.emits
    }

    /** A reader that waits has been told, or is going to be, or will be as soon as there is more or the end. */
    ghost predicate Told()
      reads `rs, `ticks, `told, `asked
    {
      asked.Some? ==>
        Announced() > asked.value.announced ||
        (Announced() == asked.value.announced && rs.needReadable && !rs.emittedReadable && rs.length <= asked.value.length && !rs.ended)
    }

    /** A reader that waits and has not been told can be. */
    ghost predicate Unspoken()
      reads `rs, `ticks, `told, `asked
    {
      asked.Some? ==> Announced() >= asked.value.announced && (rs.emittedReadable ==> Announced() > asked.value.announced)
    }

    /** The end event has come or is going to. */
    predicate EndDue()
      reads `rs, `ticks
    {
      ticks.ends > 0 || rs.endEmitted
    }

    /** In flowing mode with no tick to come that flows on, nothing is left in the read buffer, and the next chunk or the end will be taken. */
    predicate Flowing()
      reads `rs, `ticks
    {
      rs.flowing ==> ticks.emits > 0 || ticks.resumes > 0 || Drawn()
    }

    predicate Drawn()
      reads `rs, `ticks
    {
      rs.length == 0 && !rs.emittedReadable && if rs.ended then EndDue() else rs.needReadable
    }

    /** An announcement that has been made in flowing mode is followed by a tick. */
    predicate Following()
      reads `rs, `ticks
    {
      rs.flowing && rs.emittedReadable ==> ticks.emits > 0 || ticks.resumes > 0
    }

    ghost predicate Base(hand: Bytes)
      reads this
    {
      Books(hand) && Told()
    }

    ghost predicate Books(hand: Bytes)
      reads this
    {
      ChunksKept() && BytesKept(hand) && WritableWell() && (rs.ended ==> ws.prefinished) && (rs.endEmitted ==> rs.ended && rs.length == 0) && (ticks.ends > 0 ==> rs.ended)
    }

    /** A read in progress has asked for a chunk, and a chunk that waits has not been asked for. */
    ghost predicate Asked()
      reads this
    {
      && (rs.reading ==> ts.needTransform)
      && (ts.writechunk.Some? ==> !ts.needTransform)
    }

    /** No chunk waits, unless the read buffer has reached its mark. */
    predicate NoneWaits()
      reads `ts, `rs
    {
      ts.writechunk.None? || rs.ended || rs.length >= rs.highWaterMark
    }

    /** What holds whenever the stream is not in the middle of handing on one chunk. */
    ghost predicate Inv()
      reads this
    {
      Base([]) && Asked() && !ts.transforming && NothingLeft()
    }

    /** The same just before the reader is told of more. */
    ghost predicate Loose()
      reads this
    {
      Books([]) && Unspoken() && Asked() && !ts.transforming && NothingLeft()
    }

    /** What holds between steps. */
    ghost predicate Valid()
      reads this
    {
      Steady() && FlowsOn()
    }

    /** In flowing mode with no tick to come that flows on, nothing is left to flow. */
    predicate FlowsOn()
      reads `rs, `ticks, `ts
    {
      Flowing() && (rs.flowing && ticks.emits == 0 && ticks.resumes == 0 ==> ts.writechunk.None? || rs.ended)
    }

    ghost predicate Steady()
      reads this
    {
      Inv() && Pending() == 0 && Finishing() && EndGiven() && !rs.sync && !ws.bufferProcessing && ws.ending == ws.ended && Settled()
    }

    /** A chunk is with the sink exactly if it waits for the transform. */
    ghost predicate Settled()
      reads `ws, `ts
    {
      ws.writing <==> ts.writechunk.Some?
    }

    /** The callbacks that are pending beyond those of the chunks in the write buffer and with the sink and of the ticks to come. */
    ghost function Pending(): int
      reads `ws, `handed, `ticks
    {
      ws.pendingcb - |Unsent()| - (if ws.writing then 1 else 0) - ticks.afterWrites
    }

    /** When everything has been taken after the end, a tick is to come, or the stream has ended and, with no callback pending, finished. */
    predicate Finishing()
      reads `ws, `ticks
    {
      ws.ending && ws.length == 0 && !ws.writing ==> ticks.afterWrites > 0 || (ws.prefinished && (ws.pendingcb == 0 ==> ws.finished))
    }

    /** The end of the writable side has been passed on. */
    predicate EndGiven()
      reads `ws, `rs
    {
      ws.prefinished ==> rs.ended
    }

    /** What only public calls change. */
    ghost function Settings(): Fixed
      reads `ws, `rs, `written
    {
      Fixed(rs.flowing, rs.readableListening, ws.corked, ws.ending, ws.ended, ws.bufferProcessing, written)
    }

    /** What the private steps leave alone. */
    twostate predicate Kept()
      reads this
    {
      SendKept() && (old(ws.bufferProcessing) ==> ws.buffer == old(ws.buffer) && handed == old(handed))
    }

    /** What handing on a buffered chunk leaves alone. */
    twostate predicate SendKept()
      reads this
    {
      CallsKept() && EndKept()
    }

    /** No callback is lost, and the end stays on its way. */
    twostate predicate EndKept()
      reads this
    {
      Pending() == old(Pending()) && (old(Finishing()) ==> Finishing()) && (old(EndGiven()) ==> EndGiven())
    }

    twostate predicate CallsKept()
      reads this
    {
      && Settings() == old(Settings()) && rs.highWaterMark == old(rs.highWaterMark)
      && old(transformed) <= transformed && old(delivered) <= delivered
      && (!rs.flowing || rs.sync ==> delivered == old(delivered) && rs.length >= old(rs.length))
      && (old(rs.ended) ==> rs.ended)
      && Waiting() <= old(Waiting())
      && (old(Settled()) ==> Settled())
      && Announces()
    }

    /** Announcements are not taken back, and a reader that can be told stays so until it is. */
    twostate predicate Announces()
      reads this
    {
      && rs.sync == old(rs.sync) && told >= old(told) && (asked == old(asked) || (rs.flowing && !rs.sync))
      && FlowKept()
      && Announced() >= old(Announced()) && (rs.emittedReadable ==> old(rs.emittedReadable) || Announced() > old(Announced()))
    }

    /** Ticks that have been promised are not taken back, and a stream that flows goes on flowing. */
    twostate predicate FlowKept()
      reads this
    {
      && ticks.afterWrites >= old(ticks.afterWrites) && ticks.emits >= old(ticks.emits) && ticks.resumes == old(ticks.resumes) && ticks.ends >= old(ticks.ends)
      && ticks.starts == old(ticks.starts)
      && rs.flowing == old(rs.flowing) && (old(rs.endEmitted) ==> rs.endEmitted)
      && (old(Flowing()) ==> Flowing()) && (old(Following()) ==> Following())
    }

    /** What small steps leave alone. */
    twostate predicate Quiet()
      reads this
    {
      Announces() && EndKept()
    }

    /** What the steps of the readable side leave alone besides, as long as no chunk waits. */
    twostate predicate WritableKept()
      reads this
    {
      ws == old(ws) && handed == old(handed) && ts.writechunk == old(ts.writechunk) && ts.writecb == old(ts.writecb) && transformed == old(transformed)
    }

    /** A chunk waits only while the reader has enough. */
    ghost predicate Refused()
      reads this
    {
      ts.writechunk.Some? ==> !rs.needReadable && rs.length >= rs.highWaterMark
    }

    /** While nothing is delivered, an empty read buffer means that nobody has been told of data. */
    twostate predicate StillNeeded()
      reads this
    {
      (!rs.flowing || rs.sync) && !rs.ended && rs.length == 0 && old(rs.needReadable) ==> rs.needReadable
    }

    // ----- the transform

    /** `_read`: transforms the chunk that waits, or notes that one is wanted. */
    method ReadMore()
      requires Base([]) && !ts.transforming && NothingLeft()
      modifies this
      ensures Inv() && Kept() && StillNeeded()
      ensures old(ts.writechunk).Some? ==> Waiting() < old(Waiting()) && Settled() && Refused() && !rs.reading
      ensures old(ts.writechunk).None? ==> WritableKept() && rs == old(rs) && delivered == old(delivered) && ticks == old(ticks) && told == old(told) && asked == old(asked)
      decreases Waiting(), 6
    {
      hide Concat;
      if ts.writechunk.Some? && ts.writecb && !ts.transforming {
        ts := ts.(transforming := true);
        AfterTransform();
      } else {
        ts := ts.(needTransform := true);
      }
    }

    /** The transform calls back with its chunk. */
    method AfterTransform()
      requires Base([]) && ts.transforming && ts.writechunk.Some?
      modifies this
      ensures Inv() && Kept() && StillNeeded()
      ensures Waiting() < old(Waiting()) && Settled() && Refused() && !rs.reading
      decreases Waiting(), 5
    {
      hide Concat, Total, Inv, Base, Unsent, Told, Flowing, Following, Finishing, EndGiven, Pending, Announced, Unspoken, Waiting, Settled, NothingLeft;
      var data := ts.writechunk.value;
      ChunkTaken();
      PushOn(data);
      LengthIs();
      ReadOn();
    }

    /** The read is over; another one begins if the reader can take more. */
    method ReadOn()
      requires Inv() && Settled() && Refused()
      modifies this
      ensures Inv() && Kept() && StillNeeded() && Settled() && Refused() && !rs.reading
      decreases Waiting(), 7
    {
      hide Concat, Total, Inv, Base, Unsent, Told, Flowing, Following, Finishing, EndGiven, Pending, Announced, Unspoken, Waiting, Settled, NothingLeft;
      ReadOver();
      if rs.needReadable || rs.length < rs.highWaterMark {
        ReadMore();
      }
    }

    /** The chunk goes to the readable side, and its write is complete. */
    method PushOn(data: Bytes)
      requires Base(data) && !ts.transforming && ts.writechunk.None? && ws.writing && ws.writelen == |data|
      modifies this
      ensures Inv() && Kept() && StillNeeded() && Settled() && Refused()
      decreases Waiting(), 21
    {
      hide Concat, Total, Inv, Base, Unsent, Waiting, Told, Flowing, Following, Finishing, EndGiven, Pending, Announced, Unspoken;
      Push(data);
      LengthIs();
      OnWrite();
    }

    method ReadOver()
      requires Inv()
      modifies `rs
      ensures Inv() && rs == old(rs).(reading := false) && Base([]) && !ts.transforming && NothingLeft()
      ensures Quiet()
    {
      hide Concat, ChunksKept, WritableWell, NothingLeft, Unsent, Waiting;
      rs := rs.(reading := false);
    }

    /** The chunk has been transformed; it is in nobody's books until it is pushed. */
    method ChunkTaken()
      requires Base([]) && ts.transforming && ts.writechunk.Some?
      modifies `ts, `transformed
      ensures var data := old(ts.writechunk).value;
              Base(data) && !ts.transforming && ts.writechunk.None? && ws.writing && ws.writelen == |data| &&
              transformed == old(transformed) + [data] && ts == old(ts).(transforming := false, writechunk := None, writecb := false)
      ensures Waiting() + 1 == old(Waiting()) && Unsent() == old(Unsent())
      ensures Quiet()
    {
      hide Concat;
      var data := ts.writechunk.value;
      ts := ts.(transforming := false, writechunk := None, writecb := false);
      TakeOut(data);
    }

    ghost method TakeOut(data: Bytes)
      modifies `transformed
      ensures transformed == old(transformed) + [data] && Concat(transformed) == Concat(old(transformed)) + data
    {
      transformed := transformed + [data];
      ConcatAppend(old(transformed), data);
    }

    // ----- the readable side

    method Push(data: Bytes)
      requires Base(data) && !ts.transforming && ts.writechunk.None? && ws.writing && ws.writelen == |data|
      modifies this
      ensures Inv() && Kept() && StillNeeded() && WritableKept()
      decreases Waiting(), 15
    {
      hide Concat, Told, Flowing, Following, Finishing, EndGiven, Pending, Announced, Unspoken;
      ts := ts.(needTransform := false);
      AddChunk(data);
    }

    /** A chunk for the reader: given out at once in flowing mode, or buffered. */
    method AddChunk(data: Bytes)
      requires Base(data) && !ts.transforming && ts.writechunk.None? && ws.writing && ws.writelen == |data| && !ts.needTransform
      modifies this
      ensures Inv() && Kept() && StillNeeded() && WritableKept() && (|data| > 0 ==> rs.readingMore)
      ensures old(rs.flowing) && old(rs.length) == 0 && !old(rs.sync) && |data| > 0 ==> old(delivered) + data <= delivered
      decreases Waiting(), 14
    {
      hide Concat, Total, Inv, Base, Unsent, Waiting, Settled, Told, Flowing, Following, Finishing, EndGiven, Pending, Announced, Unspoken;
      StopReading(data);
      if |data| == 0 {
        NothingPushed(data);
        return;
      }
      NotEnded(data);
      if rs.ended {
        // The error of a push after the end of the stream.
        assert false;
      }
      TakeChunk(data);
    }

    method TakeChunk(data: Bytes)
      requires Base(data) && !ts.transforming && ts.writechunk.None? && ws.writing && !ts.needTransform && !rs.reading
      requires |data| > 0 && !rs.ended
      modifies this
      ensures Inv() && Kept() && WritableKept() && (!rs.flowing || rs.sync ==> rs.length > 0) && rs.readingMore
      ensures old(rs.flowing) && old(rs.length) == 0 && !old(rs.sync) && |data| > 0 ==> old(delivered) + data <= delivered
      decreases Waiting(), 13, 2
    {
      hide Concat, Total, Inv, Base, Unsent, Waiting, Settled, Told, Flowing, Following, Finishing, EndGiven, Pending, Announced, Unspoken;
      Hand(data);
      MaybeReadMore();
    }

    /** To the reader or into the read buffer. */
    method Hand(data: Bytes)
      requires Base(data) && !ts.transforming && ts.writechunk.None? && ws.writing && !ts.needTransform && !rs.reading
      requires |data| > 0 && !rs.ended
      modifies this
      ensures Inv() && Kept() && WritableKept() && (!rs.flowing || rs.sync ==> rs.length > 0)
      ensures old(rs.flowing) && old(rs.length) == 0 && !old(rs.sync) && |data| > 0 ==> old(delivered) + data <= delivered
      decreases Waiting(), 13, 1
    {
      hide Concat, Total, Inv, Base, Unsent, Waiting, Settled, Told, Flowing, Following, Finishing, EndGiven, Pending, Announced, Unspoken;
      if rs.flowing && rs.length == 0 && !rs.sync {
        GiveChunk(data);
      } else {
        BufferChunk(data);
      }
    }

    method StopReading(data: Bytes)
      requires Base(data)
      modifies `rs
      ensures Base(data) && rs == old(rs).(reading := false)
      ensures Quiet()
    {
      hide Concat, ChunksKept, WritableWell, NothingLeft, Unsent, Waiting;
      rs := rs.(reading := false);
    }

    lemma NothingPushed(data: Bytes)
      requires Base(data) && data == [] && !ts.transforming && ts.writechunk.None? && ws.writing && !rs.reading
      ensures Inv()
    {
      hide Concat, ChunksKept, WritableWell;
    }

    lemma NotEnded(data: Bytes)
      requires Base(data) && ws.writing && ws.writelen == |data| > 0
      ensures !rs.ended
    {
      hide Concat, ChunksKept, BytesKept;
    }

    /** The data event of flowing mode. */
    method GiveChunk(data: Bytes)
      requires Base(data) && !ts.transforming && ts.writechunk.None? && ws.writing && !ts.needTransform && !rs.reading
      requires rs.flowing && rs.length == 0 && !rs.ended && !rs.sync
      modifies this
      ensures Inv() && Kept() && WritableKept()
      ensures old(delivered) + data <= delivered
      decreases Waiting(), 13, 0
    {
      hide Concat;
      ConcatNone<bv8>();
      assert Concat(rs.buffer) == [];
      assert delivered + [] + data == (delivered + data) + [] + [];
      delivered := delivered + data;
      var none := Read(Some(0));
    }

    method BufferChunk(data: Bytes)
      requires Base(data) && !ts.transforming && ts.writechunk.None? && ws.writing && !ts.needTransform && !rs.reading
      requires |data| > 0 && !rs.ended
      modifies this
      ensures Inv() && Kept() && WritableKept() && (!rs.flowing || rs.sync ==> rs.length > 0)
      decreases Waiting(), 12
    {
      hide Concat;
      ConcatAppend(rs.buffer, data);
      assert delivered + Concat(rs.buffer) + data == delivered + (Concat(rs.buffer) + data) + [];
      rs := rs.(length := rs.length + |data|, buffer := rs.buffer + [data]);
      if rs.needReadable {
        EmitReadable();
      }
    }

    method MaybeReadMore()
      requires Inv()
      modifies `rs
      ensures Inv() && rs == old(rs).(readingMore := true) && Quiet()
    {
      if !rs.readingMore {
        Note(rs.(readingMore := true));
      }
    }

    /** Notes in the books of the readable side, other than those on bytes, reads under way and the end. */
    method Note(r: ReadableState)
      requires Inv()
      requires r == rs.(highWaterMark := r.highWaterMark, needReadable := r.needReadable, emittedReadable := r.emittedReadable,
                        readingMore := r.readingMore, readableListening := r.readableListening)
      requires (rs.needReadable ==> r.needReadable) && (r.emittedReadable ==> rs.emittedReadable)
      modifies `rs
      ensures Inv() && rs == r
      ensures Quiet()
    {
      hide Concat, ChunksKept, WritableWell, NothingLeft, Unsent, Waiting;
      rs := r;
    }

    /** Tells the reader, at once or on a tick, unless it has been told since it last read. */
    method EmitReadable()
      requires Loose()
      modifies this
      ensures Inv() && Kept() && (old(ts.writechunk).None? ==> WritableKept())
      ensures old(Following()) ==> Flowing()
      decreases Waiting(), 11
    {
      hide Concat, Total, Unsent, Told, Finishing, EndGiven, Pending, Announced, Flowing, Drawn, EndDue;
      if !rs.emittedReadable {
        if rs.sync {
          EmitLater();
        } else {
          EmitNow();
          Flow();
        }
      } else {
        NotNeeded();
      }
    }

    method NotNeeded()
      requires Loose() && rs.emittedReadable
      modifies `rs
      ensures Inv() && rs == old(rs).(needReadable := false)
      ensures Quiet()
      ensures old(Following()) ==> Flowing()
    {
      hide Concat, ChunksKept, WritableWell, NothingLeft, Unsent, Waiting;
      rs := rs.(needReadable := false);
    }

    method EmitLater()
      requires Loose() && !rs.emittedReadable
      modifies `rs, `ticks
      ensures Inv() && rs == old(rs).(needReadable := false, emittedReadable := true)
      ensures ticks == old(ticks).(emits := old(ticks).emits + 1)
      ensures Quiet() && Flowing()
    {
      hide Concat, ChunksKept, WritableWell, NothingLeft, Unsent, Waiting;
      rs := rs.(needReadable := false, emittedReadable := true);
      ticks := ticks.(emits := ticks.emits + 1);
    }

    method EmitNow()
      requires Loose() && !rs.emittedReadable
      modifies `rs, `told
      ensures Inv() && rs == old(rs).(needReadable := false, emittedReadable := true) && told == old(told) + 1
      ensures Announced() > old(Announced()) && EndKept()
    {
      hide Concat, ChunksKept, WritableWell, NothingLeft, Unsent, Waiting;
      rs := rs.(needReadable := false, emittedReadable := true);
      told := told + 1;
    }

    /** In flowing mode, reads until there is nothing to read. */
    method Flow()
      requires Inv() && !rs.sync
      modifies this
      ensures Inv() && Kept() && (old(ts.writechunk).None? ==> WritableKept())
      ensures Flowing() && Following() && (rs.flowing ==> ts.writechunk.None? || rs.ended)
      decreases Waiting(), 9
    {
      hide Concat, Total, Inv, Unsent, Waiting, Told, Flowing, Following, Finishing, EndGiven, Pending, Announced, Unspoken, Settled;
      if rs.flowing {
        var chunk := Read(None);
        DeliveredBound();
        while chunk.Some? && rs.flowing
          invariant Inv() && Kept() && rs.flowing && (old(ts.writechunk).None? ==> WritableKept())
          invariant |delivered| <= |Concat(written)|
          invariant chunk.None? ==> Dry(None) && Following()
          decreases |Concat(written)| - |delivered|, chunk.Some?
        {
          chunk := Read(None);
          DeliveredBound();
        }
      }
      FlowsAgain();
    }

    lemma FlowsAgain()
      requires rs.flowing ==> Dry(None) && Following()
      ensures Flowing() && Following()
    {
    }

    lemma DeliveredBound()
      requires Inv()
      ensures |delivered| <= |Concat(written)|
    {
      ConcatAdds(transformed, (if ts.writechunk.Some? then [ts.writechunk.value] else []) + Unsent());
      assert written == transformed + ((if ts.writechunk.Some? then [ts.writechunk.value] else []) + Unsent());
    }

    /** In paused mode a read of `n` takes `n` bytes if they are there; if not, all there are once the stream has ended, and none before. */
    predicate RightAmount(n: Option<int>, m: nat)
      reads `rs
    {
      !rs.flowing ==>
        m == if n.None? then rs.length else if n.value <= 0 then 0 else if n.value <= rs.length then n.value else if rs.ended then rs.length else 0
    }

    /** How many bytes a read of `n` takes; a read beyond the mark raises it. */
    method HowMuchToRead(n: Option<int>) returns (m: nat)
      requires Inv()
      modifies `rs
      ensures Inv() && m <= rs.length
      ensures rs == old(rs).(highWaterMark := rs.highWaterMark, needReadable := rs.needReadable)
      ensures n.None? || n.value <= old(rs.highWaterMark) ==> rs.highWaterMark == old(rs.highWaterMark)
      ensures RightAmount(n, m) && (n.Some? && n.value <= 0 ==> m == 0)
      ensures n.Some? && 0 < n.value <= MAX_HWM && (rs.length > 0 || !rs.ended) ==> rs.highWaterMark >= n.value
      ensures (old(rs.needReadable) ==> rs.needReadable) && (n.None? && m == 0 ==> rs.length == 0)
      ensures Quiet()
    {
      hide Concat, Total, RoundUp, Inv, Told, Flowing, Following, Finishing, EndGiven, Pending, Announced, Unspoken;
      LengthIs();
      if rs.length == 0 && rs.ended {
        m := 0;
      } else if n.None? {
        m := WhatIsThere();
      } else if n.value <= 0 {
        m := 0;
      } else {
        m := HowMuchOf(n.value);
      }
    }

    /** Everything, or in flowing mode one buffer at a time. */
    method WhatIsThere() returns (m: nat)
      requires Inv() && rs.length >= 0
      ensures m <= rs.length && (!rs.flowing ==> m == rs.length) && (m == 0 ==> rs.length == 0)
    {
      LengthIs();
      if rs.flowing && rs.buffer != [] {
        ConcatHead(rs.buffer);
        return |rs.buffer[0]|;
      }
      return rs.length;
    }

    lemma ReadingAsked()
      requires Inv()
      ensures rs.reading ==> ts.writechunk.None?
    {
    }

    lemma LengthIs()
      requires Inv()
      ensures 0 <= rs.length == |Concat(rs.buffer)| && (rs.length == 0 <==> rs.buffer == []) && (rs.buffer != [] ==> rs.buffer[0] != [])
    {
      hide ChunksKept, WritableWell, Told;
      if rs.buffer != [] { ConcatHead(rs.buffer); }
    }

    method HowMuchOf(n: nat) returns (m: nat)
      requires n > 0 && Inv() && rs.length >= 0
      modifies `rs
      ensures Inv() && m <= rs.length
      ensures rs == old(rs).(highWaterMark := rs.highWaterMark, needReadable := rs.needReadable)
      ensures n <= old(rs.highWaterMark) ==> rs.highWaterMark == old(rs.highWaterMark)
      ensures m == (if n <= rs.length then n else if rs.ended then rs.length else 0) && (n <= MAX_HWM ==> rs.highWaterMark >= n)
      ensures old(rs.needReadable) ==> rs.needReadable
      ensures Quiet()
    {
      hide RoundUp, Inv, Told, Flowing, Following, Finishing, EndGiven, Pending, Announced, Unspoken;
      RaiseMark(n);
      if n > rs.length {
        if !rs.ended {
          Note(rs.(needReadable := true));
          return 0;
        }
        return rs.length;
      }
      return n;
    }

    method RaiseMark(n: nat)
      requires n > 0 && Inv()
      modifies `rs
      ensures Inv() && rs == old(rs).(highWaterMark := rs.highWaterMark) && Quiet()
      ensures (n <= old(rs.highWaterMark) ==> rs.highWaterMark == old(rs.highWaterMark)) && (n <= MAX_HWM ==> rs.highWaterMark >= n)
    {
      hide RoundUp, Inv, Told, Flowing, Following, Finishing, EndGiven, Pending, Announced, Unspoken;
      if n > rs.highWaterMark {
        Note(rs.(highWaterMark := RoundUp(n)));
      }
    }

    /** What a read leaves alone. */
    twostate predicate ReadKept(n: Option<int>)
      reads this
    {
      && Settings() == old(Settings())
      && (n.None? || n.value <= old(rs.highWaterMark) ==> rs.highWaterMark == old(rs.highWaterMark))
      && old(transformed) <= transformed && old(delivered) <= delivered
      && (n == Some(0) && !rs.flowing ==> delivered == old(delivered) && rs.length >= old(rs.length))
      && (old(rs.ended) ==> rs.ended)
      && (old(ws.bufferProcessing) ==> ws.buffer == old(ws.buffer) && handed == old(handed))
      && Waiting() <= old(Waiting())
      && (old(Settled()) ==> Settled())
      && ReadAnnounces(n) && EndKept()
    }

    /** A read of anything ends the waiting of the reader, and lets it be told again. */
    twostate predicate ReadAnnounces(n: Option<int>)
      reads this
    {
      && rs.sync == old(rs.sync) && told >= old(told) && FlowKept()
      && (if n.None? || n.value > 0 then asked.None? else asked == old(asked) || rs.flowing)
      && Announced() >= old(Announced()) && (rs.emittedReadable ==> old(rs.emittedReadable) || Announced() > old(Announced()))
    }

    /** What a read in paused mode gives: the next bytes, as many as were asked for. Fewer are given, all there are, only when
        the stream has ended; none are given only if there are too few, and then not because a chunk waits for the transform. */
    twostate predicate Given(n: Option<int>, new ret: Option<Bytes>)
      reads this
    {
      !rs.flowing ==>
        && delivered == old(delivered) + (if ret.Some? then ret.value else [])
        && rs.length + (if ret.Some? then |ret.value| else 0) >= old(rs.length)
        && (old(rs.ended) && (n.None? || n.value > 0) ==> rs.length + (if ret.Some? then |ret.value| else 0) == old(rs.length))
        && (n.Some? && ret.Some? ==> |ret.value| == n.value || (|ret.value| < n.value && rs.ended && rs.length == 0))
        && (ret.None? && (n.None? || n.value > 0) ==> (n.None? || rs.length < n.value) && (n.None? || rs.ended ==> rs.length == 0))
        && (ret.None? && (n.None? || 0 < n.value <= MAX_HWM) ==> ts.writechunk.None? || rs.ended)
    }

    /** After a read that gives nothing the end event is due if the stream has ended, and if not the reader is to be told of more;
        a read of whatever there is has found nothing. */
    predicate Dry(n: Option<int>)
      reads `rs, `ts, `ticks
    {
      && (if rs.ended then rs.length == 0 ==> EndDue() else rs.needReadable)
      && (n.None? ==> rs.length == 0 && (ts.writechunk.None? || rs.ended))
    }

    /** Takes bytes from the read buffer, after asking for more if the buffer runs low. */
    method Read(n: Option<int>) returns (ret: Option<Bytes>)
      requires Inv() && !rs.sync
      modifies this
      ensures Inv() && ReadKept(n) && (old(ts.writechunk).None? ==> WritableKept())
      ensures ret.Some? ==> 0 < |ret.value| <= |delivered| - |old(delivered)| && delivered[|delivered| - |ret.value|..] == ret.value
      ensures Given(n, ret) && (n.Some? && n.value <= 0 ==> ret.None?) && (ret.None? && (n.None? || n.value > 0) ==> Dry(n))
      ensures (n.None? || n.value > 0 ==> Following()) && ((n.None? || n.value > 0) && rs.emittedReadable ==> Announced() > old(Announced()))
      ensures n == Some(0) && !rs.flowing ==> NoneWaits()
      decreases Waiting(), if n == Some(0) then 12 else 8
    {
      hide Concat, Total, Inv, Unsent, Waiting, Unspoken;
      if n.None? || n.value > 0 {
        ret := ReadAfresh(n);
      } else {
        if n == Some(0) && rs.needReadable && (rs.length >= rs.highWaterMark || rs.ended) {
          TellAgain();
          return None;
        }
        ret := ReadSome(n);
      }
    }

    /** A read of anything. */
    method ReadAfresh(n: Option<int>) returns (ret: Option<Bytes>)
      requires Inv() && !rs.sync && (n.None? || n.value > 0)
      modifies this
      ensures Inv() && ReadKept(n) && (old(ts.writechunk).None? ==> WritableKept())
      ensures ret.Some? ==> 0 < |ret.value| <= |delivered| - |old(delivered)| && delivered[|delivered| - |ret.value|..] == ret.value
      ensures Given(n, ret) && (ret.None? ==> Dry(n)) && Following()
      ensures rs.emittedReadable ==> Announced() > old(Announced())
      decreases Waiting(), 8, 1
    {
      hide Concat, Total, Inv, Unsent, Waiting, Unspoken, Told, Flowing, Following, Finishing, EndGiven, Pending, Announced;
      Unask();
      ret := ReadSome(n);
    }

    /** The reader reads: it does not wait any more, and can be told again. */
    method Unask()
      requires Inv()
      modifies `rs, `asked
      ensures Inv() && asked.None? && rs == old(rs).(emittedReadable := false)
      ensures Announced() == old(Announced()) && told == old(told) && FlowKept() && Following() && EndKept()
    {
      hide Concat, ChunksKept, WritableWell, NothingLeft, Unsent, Waiting;
      asked := None;
      rs := rs.(emittedReadable := false);
    }

    /** Nothing was asked for, but there is data, or the end, that nobody has been told of. */
    method TellAgain()
      requires Inv() && !rs.sync
      modifies this
      ensures Inv() && Kept() && (old(ts.writechunk).None? ==> WritableKept())
      decreases Waiting(), 12, 0
    {
      hide Concat, Total, Inv, Unsent, Waiting;
      if rs.length == 0 && rs.ended {
        EndReadable();
      } else {
        CanTell();
        EmitReadable();
      }
    }

    lemma CanTell()
      requires Inv()
      ensures Loose()
    {
    }

    /** The part of a read that takes bytes. */
    method ReadSome(n: Option<int>) returns (ret: Option<Bytes>)
      requires Inv() && !rs.sync && (n.None? || n.value > 0 ==> asked.None?)
      modifies this
      ensures Inv() && ReadKept(n) && (old(ts.writechunk).None? ==> WritableKept())
      ensures ret.Some? ==> 0 < |ret.value| <= |delivered| - |old(delivered)| && delivered[|delivered| - |ret.value|..] == ret.value
      ensures Given(n, ret) && (n.Some? && n.value <= 0 ==> ret.None?) && (ret.None? && (n.None? || n.value > 0) ==> Dry(n))
      ensures n == Some(0) ==> NoneWaits()
      decreases Waiting(), 8, 0
    {
      hide Concat, Total, Inv, Unsent, Waiting, Told, Flowing, Following, Finishing, EndGiven, Pending, Announced, Unspoken, Drawn;
      LengthIs();
      var m := HowMuchToRead(n);
      ret := TakeOrEnd(n, m);
    }

    method TakeOrEnd(n: Option<int>, m: nat) returns (ret: Option<Bytes>)
      requires Inv() && !rs.sync && (n.None? || n.value > 0 ==> asked.None?)
      requires m <= rs.length && RightAmount(n, m) && (n.Some? && n.value <= 0 ==> m == 0)
      requires (n.Some? && 0 < n.value <= MAX_HWM && (rs.length > 0 || !rs.ended) ==> rs.highWaterMark >= n.value) && (n.None? && m == 0 ==> rs.length == 0)
      modifies this
      ensures Inv() && ReadKept(n) && (old(ts.writechunk).None? ==> WritableKept())
      ensures ret.Some? ==> 0 < |ret.value| <= |delivered| - |old(delivered)| && delivered[|delivered| - |ret.value|..] == ret.value
      ensures Given(n, ret) && (n.Some? && n.value <= 0 ==> ret.None?) && (ret.None? && (n.None? || n.value > 0) ==> Dry(n))
      ensures n == Some(0) ==> NoneWaits()
      decreases Waiting(), 7, 4
    {
      hide Concat, Total, Inv, Unsent, Waiting, Settled, Told, Flowing, Following, Finishing, EndGiven, Pending, Announced, Unspoken, Drawn;
      if m == 0 && rs.ended {
        ret := None;
        TellEnd();
      } else {
        ret := TakeSome(n, m);
      }
    }

    method TellEnd()
      requires Inv() && rs.ended
      modifies `ticks
      ensures Inv() && Quiet() && (rs.length == 0 ==> EndDue())
    {
      hide Concat, Total, Inv, Told, Flowing, Following, Finishing, EndGiven, Pending, Announced, Unspoken;
      if rs.length == 0 {
        EndReadable();
      }
    }

    method TakeSome(n: Option<int>, k: nat) returns (ret: Option<Bytes>)
      requires Inv() && !rs.sync && (n.None? || n.value > 0 ==> asked.None?)
      requires k <= rs.length && !(k == 0 && rs.ended) && RightAmount(n, k) && (n.Some? && n.value <= 0 ==> k == 0)
      requires (n.Some? && 0 < n.value <= MAX_HWM ==> rs.highWaterMark >= n.value) && (n.None? && k == 0 ==> rs.length == 0)
      modifies this
      ensures Inv() && ReadKept(n) && (old(ts.writechunk).None? ==> WritableKept())
      ensures ret.Some? ==> 0 < |ret.value| <= |delivered| - |old(delivered)| && delivered[|delivered| - |ret.value|..] == ret.value
      ensures Given(n, ret) && (n.Some? && n.value <= 0 ==> ret.None?) && (ret.None? && (n.None? || n.value > 0) ==> Dry(n))
      ensures n == Some(0) ==> NoneWaits()
      decreases Waiting(), 7, 3
    {
      hide Concat, Total, Inv, Unsent, Waiting, Settled, Told, Flowing, Following, Finishing, EndGiven, Pending, Announced, Unspoken;
      var m := Look(n, k);
      ret := FinishRead(n, m);
    }

    /** More is asked for, if need be, and `m` bytes can be taken. */
    twostate predicate Looked(n: Option<int>, m: nat)
      reads this
    {
      && m <= rs.length && RightAmount(n, m) && (n.Some? && n.value <= 0 ==> m == 0)
      && delivered == old(delivered) && rs.length >= old(rs.length) && (old(rs.ended) ==> rs.length == old(rs.length))
    }

    /** Reads ahead if the buffer runs low, and says how much there is to take after that. */
    method Look(n: Option<int>, k: nat) returns (m: nat)
      requires Inv() && !rs.sync && (n.None? || n.value > 0 ==> asked.None?)
      requires k <= rs.length && !(k == 0 && rs.ended) && RightAmount(n, k) && (n.Some? && n.value <= 0 ==> k == 0)
      requires (n.Some? && 0 < n.value <= MAX_HWM ==> rs.highWaterMark >= n.value) && (n.None? && k == 0 ==> rs.length == 0)
      modifies this
      ensures Inv() && ReadKept(n) && (old(ts.writechunk).None? ==> WritableKept()) && Looked(n, m)
      ensures m == 0 && (n.None? || (!rs.flowing && 0 < n.value <= MAX_HWM)) ==> ts.writechunk.None? || rs.ended
      ensures n.None? && m == 0 ==> rs.length == 0
      ensures n == Some(0) ==> NoneWaits()
      decreases Waiting(), 7, 2
    {
      hide Concat, Total, Inv, Unsent, Waiting, Settled, Told, Flowing, Following, Finishing, EndGiven, Pending, Announced, Unspoken;
      m := k;
      var doRead := rs.needReadable;
      if rs.length == 0 || rs.length - m < rs.highWaterMark {
        doRead := true;
      }
      if rs.ended || rs.reading {
        ReadingAsked();
        doRead := false;
      }
      if doRead {
        m := AskAgain(n, m);
      }
    }

    /** Asks for more, and if that has brought data at once, looks again how much there is to take. */
    method AskAgain(n: Option<int>, m: nat) returns (k: nat)
      requires Inv() && !rs.sync && (n.None? || n.value > 0 ==> asked.None?)
      requires !rs.ended && !rs.reading && m <= rs.length && RightAmount(n, m) && (n.Some? && n.value <= 0 ==> m == 0)
      requires n.None? && m == 0 ==> rs.length == 0
      modifies this
      ensures Inv() && ReadKept(n) && (old(ts.writechunk).None? ==> WritableKept()) && Looked(n, k) && (n.None? && k == 0 ==> rs.length == 0)
      ensures ts.writechunk.Some? ==> rs.length >= old(rs.highWaterMark)
      ensures rs.length == 0 ==> rs.ended || ts.writechunk.None?
      decreases Waiting(), 7, 1
    {
      hide Concat, Total, Inv, Unsent, Waiting, Told, Flowing, Following, Finishing, EndGiven, Pending, Announced, Unspoken;
      AskForMore();
      LengthIs();
      k := m;
      if !rs.reading {
        k := HowMuchToRead(n);
      }
    }

    /** What asking for more leaves alone: nothing is given to the reader. */
    twostate predicate AskKept()
      reads this
    {
      Kept() && delivered == old(delivered) && rs.length >= old(rs.length) && asked == old(asked)
    }

    /** Calls `_read` and notes whether it brings data at once. */
    method AskForMore()
      requires Inv() && !rs.sync && !rs.ended && !rs.reading
      modifies this
      ensures Inv() && AskKept() && (old(ts.writechunk).None? ==> WritableKept() && rs.length == old(rs.length) && rs.reading && rs.buffer == old(rs.buffer) && !rs.ended)
      ensures old(ts.writechunk).Some? ==> !rs.reading
      ensures rs.length == 0 ==> rs.ended || ts.writechunk.None?
      ensures ts.writechunk.Some? ==> rs.length >= rs.highWaterMark
      decreases Waiting(), 7, 0
    {
      hide Concat, Total, Inv, Base, Unsent, Waiting, Settled, Told, Flowing, Following, Finishing, EndGiven, Pending, Announced, NothingLeft;
      LengthIs();
      StartAsking();
      ReadMore();
      StopAsking();
    }

    method StartAsking()
      requires Inv() && !rs.sync && !rs.ended && !rs.reading
      modifies `rs
      ensures Base([]) && !ts.transforming && NothingLeft()
      ensures rs == old(rs).(reading := true, sync := true, needReadable := old(rs).needReadable || old(rs).length == 0)
      ensures Announced() == old(Announced()) && FlowKept() && EndKept()
    {
      hide Concat, Total, ChunksKept, WritableWell, NothingLeft, Unsent, Waiting;
      rs := rs.(reading := true, sync := true, needReadable := rs.needReadable || rs.length == 0);
    }

    method StopAsking()
      requires Inv()
      modifies `rs
      ensures Inv() && rs == old(rs).(sync := false) && Announced() == old(Announced()) && FlowKept() && EndKept()
    {
      hide Concat, Total, ChunksKept, WritableWell, NothingLeft, Unsent, Waiting;
      rs := rs.(sync := false);
    }

    method FinishRead(n: Option<int>, m: nat) returns (ret: Option<Bytes>)
      requires Inv() && m <= rs.length
      modifies `rs, `delivered, `ticks
      ensures Inv() && rs == old(rs).(length := rs.length, buffer := rs.buffer, needReadable := rs.needReadable)
      ensures ticks == old(ticks).(ends := ticks.ends) && ticks.ends >= old(ticks.ends) && (old(rs.needReadable) ==> rs.needReadable)
      ensures n != Some(m) && rs.ended && rs.length == 0 ==> EndDue()
      ensures if m == 0 then ret.None? && delivered == old(delivered) && rs.length == old(rs.length) && rs.needReadable
              else ret.Some? && |ret.value| == m && delivered == old(delivered) + ret.value && rs.length == old(rs.length) - m
      ensures Quiet()
    {
      hide Concat, Total, Inv, Unsent, Waiting, Settled, Told, Flowing, Following, Finishing, EndGiven, Pending, Announced, Unspoken;
      ret := TakeAndNote(m);
      if n != Some(m) && rs.ended && rs.length == 0 {
        EndReadable();
      }
    }

    /** Takes the bytes, and wants to be told of more if there are none left. */
    method TakeAndNote(m: nat) returns (ret: Option<Bytes>)
      requires Inv() && m <= rs.length
      modifies `rs, `delivered
      ensures Inv() && rs == old(rs).(length := rs.length, buffer := rs.buffer, needReadable := rs.needReadable)
      ensures old(rs.needReadable) ==> rs.needReadable
      ensures if m == 0 then ret.None? && delivered == old(delivered) && rs.length == old(rs.length) && rs.needReadable
              else ret.Some? && |ret.value| == m && delivered == old(delivered) + ret.value && rs.length == old(rs.length) - m
      ensures Quiet()
    {
      hide Concat, Total, Inv, Unsent, Waiting, Settled, Told, Flowing, Following, Finishing, EndGiven, Pending, Announced, Unspoken, Drawn, EndDue;
      ret := Take(m);
      NoteDry(ret.None?);
    }

    method NoteDry(nothing: bool)
      requires Inv()
      modifies `rs
      ensures Inv() && rs == old(rs).(needReadable := rs.needReadable) && (old(rs.needReadable) || nothing ==> rs.needReadable)
      ensures Quiet()
    {
      hide Concat, Total, Inv, Told, Flowing, Following, Finishing, EndGiven, Pending, Announced, Unspoken;
      if nothing || (rs.length == 0 && !rs.ended) {
        WantMore();
      }
    }

    method WantMore()
      requires Inv()
      modifies `rs
      ensures Inv() && rs == old(rs).(needReadable := true)
      ensures Quiet()
    {
      Note(rs.(needReadable := true));
    }

    /** Moves the first `m` bytes of the read buffer to the reader. */
    method Take(m: nat) returns (ret: Option<Bytes>)
      requires Inv() && m <= rs.length
      modifies `rs, `delivered
      ensures Inv() && rs == old(rs).(length := rs.length, buffer := rs.buffer)
      ensures if m == 0 then ret.None? && delivered == old(delivered) && rs.length == old(rs.length)
              else ret.Some? && |ret.value| == m && delivered == old(delivered) + ret.value && rs.length == old(rs.length) - m
      ensures Quiet()
    {
      hide Concat, Total, From;
      if m == 0 {
        return None;
      }
      var left: seq<Bytes>;
      TakingIs(m);
      ret, left := FromList(m, rs.buffer, rs.length);
      rs := rs.(length := rs.length - m, buffer := left);
      delivered := delivered + ret.value;
    }

    /** What the first `m` bytes and the rest are to what has been transformed. */
    lemma TakingIs(m: nat)
      requires BytesKept([]) && 0 < m <= rs.length
      ensures var all := Concat(rs.buffer);
              rs.buffer != [] && m <= |all| && all[..|all|] == all && Concat<bv8>([]) == [] && all[|all|..] == [] &&
              (delivered + all[..m]) + all[m..] + [] == Concat(transformed)
    {
      hide Concat;
      ConcatNone<bv8>();
      var all := Concat(rs.buffer);
      assert all == all[..m] + all[m..];
      assert (delivered + all[..m]) + all[m..] + [] == delivered + all + [];
    }

    method EndReadable()
      requires Inv() && rs.ended && rs.length == 0
      modifies `ticks
      ensures Inv() && ticks == if rs.endEmitted then old(ticks) else old(ticks).(ends := old(ticks).ends + 1)
      ensures Quiet()
    {
      hide Concat, ChunksKept, BytesKept, WritableWell, NothingLeft, Unsent, Waiting;
      if !rs.endEmitted {
        ticks := ticks.(ends := ticks.ends + 1);
      }
    }

    // ----- the writable side

    predicate NeedFinish()
      reads this
    {
      ws.ending && ws.length == 0 && !ws.finished && !ws.writing
    }

    /** The completion of a write. */
    method OnWrite()
      requires Inv() && ws.writing && ts.writechunk.None?
      modifies this
      ensures Inv() && Kept() && StillNeeded() && Settled() && Refused() && Finishing()
      decreases Waiting(), 20
    {
      hide Concat, Total, ChunksKept, BytesKept, WritableWell, Unsent, Waiting, Told, Flowing, Following, Finishing, EndGiven, Pending, Announced, Unspoken, Inv, Base, Settled, NothingLeft;
      var sync := ws.sync;
      StateUpdate();
      GoOn();
      LengthIs();
      if sync {
        AfterWriteLater();
      } else {
        AfterWrite();
      }
    }

    /** The next chunks, unless the stream is about to finish, corked, or at work on them already. */
    method GoOn()
      requires Base([]) && Asked() && !ts.transforming && !ws.writing && ts.writechunk.None?
      modifies this
      ensures Inv() && Kept() && StillNeeded() && Settled() && Refused()
      decreases Waiting(), 19, 2
    {
      hide Concat, Total, ChunksKept, BytesKept, WritableWell, Unsent, Waiting, Told, Flowing, Following, Finishing, EndGiven, Pending, Announced, Unspoken;
      var finished := NeedFinish();
      if !finished && ws.corked == 0 && !ws.bufferProcessing && ws.buffer != [] {
        ClearBuffer();
      } else {
        NoneMissed();
      }
    }

    method AfterWriteLater()
      requires Inv()
      modifies `ticks
      ensures Inv() && ticks == old(ticks).(afterWrites := old(ticks).afterWrites + 1)
      ensures Announces() && Pending() == old(Pending()) - 1 && Finishing() && (old(EndGiven()) ==> EndGiven())
    {
      hide Concat, ChunksKept, BytesKept, WritableWell, NothingLeft, Unsent, Waiting;
      ticks := ticks.(afterWrites := ticks.afterWrites + 1);
    }

    /** With the buffer empty or in hand, corks left, or nothing but the end to come, no completion is missing. */
    lemma NoneMissed()
      requires Base([]) && (NeedFinish() || ws.finished || ws.corked > 0 || ws.bufferProcessing || ws.buffer == [])
      ensures NothingLeft()
    {
      hide Concat, BytesKept, ChunksKept;
    }

    /** The write is over, and its bytes are off the books. */
    method StateUpdate()
      requires Inv() && ws.writing && ts.writechunk.None?
      modifies `ws
      ensures Base([]) && Asked() && !ts.transforming && Waiting() == old(Waiting()) && Unsent() == old(Unsent()) && Pending() == old(Pending()) + 1
      ensures ws == old(ws).(writing := false, length := old(ws).length - old(ws).writelen, writelen := 0)
      ensures Announces() && (old(EndGiven()) ==> EndGiven())
    {
      hide Concat, BytesKept, Total, From;
      ws := ws.(writing := false, length := ws.length - ws.writelen, writelen := 0);
    }

    /** Works off the write buffer, up to the first chunk that has to wait. */
    method ClearBuffer()
      requires Base([]) && Asked() && !ts.transforming && !ws.writing && !ws.bufferProcessing
      modifies this
      ensures Inv() && Kept() && StillNeeded() && Settled() && Refused()
      decreases Waiting(), 19, 1
    {
      hide Concat, BytesKept, Total, WritableWell, ChunksKept, Unsent, Waiting, NothingLeft, Told, Flowing, Following, Finishing, EndGiven, Pending, Announced, Unspoken;
      SetProcessing();
      var c := WorkOff();
      DropSent(c);
    }

    method SetProcessing()
      requires Base([]) && Asked() && !ts.transforming && !ws.writing && !ws.bufferProcessing
      modifies `ws
      ensures Inv() && Settled() && ws == old(ws).(bufferProcessing := true) && handed == 0 && Waiting() == old(Waiting()) && Pending() == old(Pending())
      ensures Quiet()
    {
      hide Concat, BytesKept, Total, From;
      ws := ws.(bufferProcessing := true);
    }

    /** Forgets the chunks that have been handed on. */
    method DropSent(c: nat)
      requires Inv() && Settled() && ws.bufferProcessing && handed == c <= |ws.buffer| && (!ws.writing ==> c == |ws.buffer|)
      modifies `ws, `handed
      ensures Inv() && Settled() && handed == 0 && Waiting() == old(Waiting()) && Pending() == old(Pending())
      ensures ws == old(ws).(buffer := ws.buffer, bufferProcessing := false)
      ensures Quiet()
    {
      hide Concat, BytesKept, Total;
      ghost var unsent := Unsent();
      ws := ws.(buffer := ws.buffer[c..], bufferProcessing := false);
      handed := 0;
      assert Unsent() == unsent;
    }

    /** The loop over the buffer: how many chunks have been handed on. */
    method WorkOff() returns (c: nat)
      requires Inv() && Settled() && !ws.writing && ws.bufferProcessing && handed == 0
      modifies this
      ensures Inv() && SendKept() && StillNeeded() && Settled() && Refused()
      ensures ws.buffer == old(ws.buffer) && handed == c <= |ws.buffer| && (!ws.writing ==> c == |ws.buffer|)
      decreases Waiting(), 19, 0
    {
      hide Concat, Total, ChunksKept, WritableWell, Told, Flowing, Following, Finishing, EndGiven, Pending, Announced, Unspoken;
      c := 0;
      while c < |ws.buffer| && !ws.writing
        invariant 0 <= c <= |ws.buffer| && handed == c && ws.buffer == old(ws.buffer)
        invariant Inv() && SendKept() && StillNeeded() && Settled() && Refused()
        decreases |ws.buffer| - c
      {
        HandOn(ws.buffer[c]);
        c := c + 1;
      }
    }

    method HandOn(chunk: Bytes)
      requires Inv() && Settled() && !ws.writing && ws.bufferProcessing && handed < |ws.buffer| && chunk == ws.buffer[handed]
      modifies this
      ensures Inv() && SendKept() && StillNeeded() && Settled() && Refused()
      ensures ws.buffer == old(ws.buffer) && handed == old(handed) + 1
      decreases Waiting(), 18, 1
    {
      hide Concat, Total, Inv, Told, Flowing, Following, Finishing, EndGiven, Pending, Announced, Unspoken, Waiting, Unsent, Settled, Handing;
      Next(chunk);
      DoWrite(chunk);
    }

    ghost method Next(chunk: Bytes)
      requires Inv() && Settled() && !ws.writing && ws.bufferProcessing && handed < |ws.buffer| && chunk == ws.buffer[handed]
      modifies `handed
      ensures Handing(chunk) && handed == old(handed) + 1 && Pending() == old(Pending()) + 1 && Waiting() == old(Waiting()) - 1
    {
      hide Concat, BytesKept, Told;
      ConcatHead(Unsent());
      assert Unsent()[1..] == ws.buffer[handed + 1..];
      assert transformed + [] + Unsent() == transformed + [chunk] + ws.buffer[handed + 1..];
      handed := handed + 1;
    }

    /** Everything is in its place but for one chunk that is about to be handed on. */
    ghost predicate Handing(chunk: Bytes)
      reads this
    {
      && Told() && transformed + [chunk] + Unsent() == written && BytesKept([]) && (rs.endEmitted ==> rs.ended && rs.length == 0) && (ticks.ends > 0 ==> rs.ended)
      && handed <= |ws.buffer| && (!ws.bufferProcessing ==> handed == 0)
      && ws.length == |chunk| + Total(Unsent())
      && ws.writelen == 0 && !ws.writing && !ts.writecb && ts.writechunk.None? && !ts.transforming && Asked()
      && (rs.ended ==> ws.prefinished) && (ws.prefinished ==> ws.ending && ws.length == 0) && (ws.finished ==> ws.prefinished)
    }

    method DoWrite(chunk: Bytes)
      requires Handing(chunk)
      modifies this
      ensures Inv() && Settled() && Refused() && StillNeeded()
      ensures Settings() == old(Settings()) && rs.highWaterMark == old(rs.highWaterMark)
      ensures old(transformed) <= transformed && old(delivered) <= delivered
      ensures !rs.flowing || rs.sync ==> delivered == old(delivered) && rs.length >= old(rs.length)
      ensures old(rs.ended) ==> rs.ended
      ensures Waiting() <= old(Waiting()) + 1 && Announces()
      ensures Pending() == old(Pending()) - 1 && Finishing() && (old(EndGiven()) ==> EndGiven())
      ensures old(ws.bufferProcessing) ==> ws.buffer == old(ws.buffer) && handed == old(handed)
      decreases Waiting() + 1, 18, 0
    {
      hide Concat, BytesKept, Total, ChunksKept, WritableWell, NothingLeft, Unsent, Waiting, Told, Flowing, Following, Finishing, EndGiven, Pending, Announced, Unspoken;
      Hold(chunk);
      Offer();
      EndSync();
    }

    /** The chunk is transformed at once if it is wanted. */
    method Offer()
      requires Base([]) && !ts.transforming && NothingLeft() && ts.writechunk.Some? && ws.writing && (rs.reading ==> ts.needTransform)
      modifies this
      ensures Inv() && Kept() && StillNeeded() && Settled() && Refused()
      decreases Waiting(), 17
    {
      hide Concat, BytesKept, Total, ChunksKept, WritableWell, Unsent, Waiting, Told, Flowing, Following, Finishing, EndGiven, Pending, Announced, Unspoken;
      if !ts.transforming {
        if ts.needTransform || rs.needReadable || rs.length < rs.highWaterMark {
          ReadMore();
        }
      }
    }

    /** The chunk is with the transform. */
    method Hold(chunk: Bytes)
      requires Handing(chunk)
      modifies `ws, `ts
      ensures ws == old(ws).(writelen := |chunk|, writing := true, sync := true)
      ensures ts == old(ts).(writecb := true, writechunk := Some(chunk))
      ensures Base([]) && NothingLeft() && Waiting() == old(Waiting()) + 1 && Pending() == old(Pending()) - 1
      ensures Announces() && Finishing() && (old(EndGiven()) ==> EndGiven())
    {
      hide Concat, BytesKept, From;
      ws := ws.(writelen := |chunk|, writing := true, sync := true);
      ts := ts.(writecb := true, writechunk := Some(chunk));
    }

    method EndSync()
      requires Inv()
      modifies `ws
      ensures Inv() && ws == old(ws).(sync := false) && Waiting() == old(Waiting()) && Pending() == old(Pending())
      ensures Quiet()
    {
      hide Concat, BytesKept, Total, From;
      ws := ws.(sync := false);
    }

    method AfterWrite()
      requires Inv() && Settled()
      modifies this
      ensures Inv() && CallsKept() && StillNeeded() && Settled()
      ensures Pending() == old(Pending()) - 1 && Finishing() && (old(EndGiven()) ==> EndGiven())
      ensures old(ts.writechunk).Some? ==> rs == old(rs) && ts == old(ts)
      ensures ws.buffer == old(ws.buffer) && handed == old(handed) && ts.writechunk == old(ts.writechunk)
      ensures ws == old(ws).(pendingcb := old(ws.pendingcb) - 1, prefinished := ws.prefinished, finished := ws.finished)
      decreases Waiting(), 16
    {
      hide Concat;
      ws := ws.(pendingcb := ws.pendingcb - 1);
      FinishMaybe();
    }

    method FinishMaybe()
      requires Inv() && Settled()
      modifies this
      ensures Inv() && Kept() && StillNeeded() && Settled() && Finishing()
      ensures old(ts.writechunk).Some? ==> rs == old(rs) && ts == old(ts)
      ensures ws.buffer == old(ws.buffer) && handed == old(handed) && ts.writechunk == old(ts.writechunk)
      ensures ws == old(ws).(prefinished := ws.prefinished, finished := ws.finished)
      decreases Waiting(), 15
    {
      hide Concat;
      if NeedFinish() {
        var last := ws.pendingcb == 0;
        if !ws.prefinished {
          ws := ws.(prefinished := true);
          Done();
        }
        if last {
          ws := ws.(finished := true);
        }
      }
    }

    /** Nothing more will be written: neither of the two errors is raised, and the readable side ends. */
    method Done()
      requires Inv() && ws.prefinished && ts.writechunk.None?
      modifies this
      ensures Inv() && Kept() && StillNeeded() && WritableKept() && rs.ended
      decreases Waiting(), 14
    {
      hide Concat, Total;
      if ws.length != 0 || ts.transforming {
        // The two errors of a transform that is done too early.
        assert false;
      }
      EndOfChunks();
    }

    /** `push(null)`. */
    method EndOfChunks()
      requires Inv() && ws.prefinished && ts.writechunk.None?
      modifies this
      ensures Inv() && Kept() && StillNeeded() && WritableKept() && rs.ended
      decreases Waiting(), 13
    {
      hide Concat, Total, ChunksKept, WritableWell, NothingLeft, Unsent, Waiting;
      var again := rs.ended;
      MarkEnd();
      if !again {
        EmitReadable();
      }
    }

    method MarkEnd()
      requires Inv() && ws.prefinished && ts.writechunk.None?
      modifies `ts, `rs
      ensures Loose() && (old(rs.ended) ==> Inv()) && ts == old(ts).(needTransform := false) && rs == old(rs).(reading := false, ended := true)
      ensures Waiting() == old(Waiting())
    {
      hide Concat, Total, From;
      ts := ts.(needTransform := false);
      rs := rs.(reading := false, ended := true);
    }

    // ----- the public calls

    /** What calls do not take back: announcements, and the wish of a reader that waits. */
    twostate predicate Promised()
      reads this
    {
      told >= old(told) && ticks.emits >= old(ticks.emits) && (asked == old(asked) || rs.flowing) && rs.flowing == old(rs.flowing)
    }

    /** Accepts a chunk, unless the stream has been ended. */
    method Write(chunk: Bytes)
      requires Valid()
      modifies this
      ensures Valid() && written == (if old(ws.ended) then old(written) else old(written) + [chunk]) && Promised()
      ensures ws.corked == old(ws.corked) && ws.ended == old(ws.ended) && rs.flowing == old(rs.flowing)
    {
      if !ws.ended {
        Accept(chunk);
      }
    }

    method Accept(chunk: Bytes)
      requires Valid() && !ws.ended
      modifies this
      ensures Valid() && written == old(written) + [chunk] && Promised()
      ensures ws.corked == old(ws.corked) && ws.ended == old(ws.ended) && rs.flowing == old(rs.flowing)
    {
      if ws.writing || ws.corked > 0 {
        Buffer(chunk);
      } else {
        Book(chunk);
        DoWrite(chunk);
      }
    }

    method Buffer(chunk: Bytes)
      requires Valid() && !ws.ended && (ws.writing || ws.corked > 0)
      modifies `ws, `written
      ensures Valid() && written == old(written) + [chunk]
      ensures ws == old(ws).(pendingcb := ws.pendingcb, length := ws.length, buffer := ws.buffer)
    {
      hide Concat, BytesKept;
      ConcatAppend(ws.buffer, chunk);
      ws := ws.(pendingcb := ws.pendingcb + 1, length := ws.length + |chunk|, buffer := ws.buffer + [chunk]);
      written := written + [chunk];
      assert Unsent() == old(Unsent()) + [chunk];
    }

    method Book(chunk: Bytes)
      requires Valid() && !ws.ended && !ws.writing && ws.corked == 0
      modifies `ws, `written
      ensures Handing(chunk) && written == old(written) + [chunk] && !ws.bufferProcessing && ws.ending == ws.ended && Pending() == 1
      ensures ws == old(ws).(pendingcb := ws.pendingcb, length := ws.length)
    {
      hide Concat, BytesKept;
      assert Unsent() == [];
      ws := ws.(pendingcb := ws.pendingcb + 1, length := ws.length + |chunk|);
      written := written + [chunk];
    }

    method Cork()
      requires Valid()
      modifies `ws
      ensures Valid() && ws == old(ws).(corked := old(ws).corked + 1)
    {
      hide Concat, Total, From;
      ws := ws.(corked := ws.corked + 1);
    }

    method Uncork()
      requires Valid()
      modifies this
      ensures Valid() && written == old(written)
      ensures ws.corked == (if old(ws.corked) == 0 then 0 else old(ws.corked) - 1) && ws.ended == old(ws.ended) && Promised()
    {
      hide Concat, Total, BytesKept, ChunksKept, WritableWell, Unsent, Waiting;
      if ws.corked > 0 {
        CountDown();
        if !ws.writing && ws.corked == 0 && !ws.finished && !ws.bufferProcessing && ws.buffer != [] {
          ClearBuffer();
        } else {
          StillValid();
        }
      }
    }

    method CountDown()
      requires Valid() && ws.corked > 0
      modifies `ws
      ensures Base([]) && Asked() && !ts.transforming && ws.ending == ws.ended && Settled() && !ws.bufferProcessing
      ensures Pending() == 0 && Finishing() && EndGiven()
      ensures ws == old(ws).(corked := old(ws).corked - 1) && Unsent() == old(Unsent())
    {
      hide Concat, Total, BytesKept, From;
      ws := ws.(corked := ws.corked - 1);
    }

    /** With the buffer empty, a chunk with the sink, corks left or everything finished, no completion is missing. */
    lemma StillValid()
      requires Base([]) && Asked() && !ts.transforming && ws.ending == ws.ended && Settled() && !ws.bufferProcessing && !rs.sync
      requires Pending() == 0 && Finishing() && EndGiven() && FlowsOn()
      requires ws.writing || ws.corked > 0 || ws.finished || ws.buffer == []
      ensures Valid()
    {
      hide Concat, BytesKept, ChunksKept;
    }

    /** Ends the writable side, after a last chunk if there is one. */
    method End(last: Option<Bytes>)
      requires Valid()
      modifies this
      ensures Valid() && ws.ended && ws.corked == 0 && Promised()
      ensures written == if last.None? || old(ws.ended) then old(written) else old(written) + [last.value]
    {
      hide Concat, BytesKept, ChunksKept, WritableWell, NothingLeft;
      if last.Some? {
        Write(last.value);
      }
      UncorkAll();
      EndWritable();
    }

    method UncorkAll()
      requires Valid()
      modifies this
      ensures Valid() && written == old(written) && ws.corked == 0 && ws.ended == old(ws.ended) && Promised()
    {
      hide Concat;
      if ws.corked > 0 {
        ws := ws.(corked := 1);
        Uncork();
      }
    }

    method EndWritable()
      requires Valid() && ws.corked == 0
      modifies this
      ensures Valid() && written == old(written) && ws.ended && ws.corked == 0 && Promised()
    {
      hide Concat, BytesKept;
      if !ws.ending && !ws.finished {
        ws := ws.(ending := true);
        FinishMaybe();
        ws := ws.(ended := true);
      }
    }

    // ----- the reader and the ticks

    /**
     * What a reader calls. It is given the next bytes. In paused mode it is given as many as it asks for if they are there.
     * If they are not, more is asked for; if that does not bring enough it is given all there is when the stream has ended,
     * and told that there is nothing before. A reader that is told so has been given, unless the stream is corked, every
     * byte written so far if it asked for whatever there is, and all but fewer than it asked for if it asked for a number.
     */
    method ReadBytes(n: Option<int>) returns (ret: Option<Bytes>)
      requires Valid()
      modifies this
      ensures Valid() && written == old(written) && old(delivered) <= delivered && told >= old(told) && ticks.emits >= old(ticks.emits)
      ensures ret.Some? ==> 0 < |ret.value| <= |delivered| - |old(delivered)| && delivered[|delivered| - |ret.value|..] == ret.value
      ensures ret.None? && (n.None? || n.value > 0) && rs.ended && rs.length == 0 ==> ticks.ends > 0 || rs.endEmitted
      ensures if ret.None? && (n.None? || n.value > 0) && !rs.ended then asked == Some(Ask(rs.length, old(Announced())))
              else (n.None? || n.value > 0 ==> asked.None?)
      ensures !rs.flowing && ret.Some? ==> delivered == old(delivered) + ret.value
      ensures !rs.flowing && n.Some? && 0 < n.value <= old(rs.length) ==> ret.Some? && |ret.value| == n.value
      ensures !rs.flowing && n.Some? && n.value > old(rs.length) && old(rs.ended) && old(rs.length) > 0 ==> ret.Some? && |ret.value| == old(rs.length)
      ensures !rs.flowing && n.Some? && ret.Some? ==> |ret.value| == n.value || (|ret.value| < n.value && rs.ended && rs.length == 0)
      ensures !rs.flowing && n.Some? && n.value > 0 && ret.None? ==> delivered == old(delivered) && rs.length < n.value && (rs.ended ==> rs.length == 0)
      ensures !rs.flowing && n.Some? && 0 < n.value <= MAX_HWM && ret.None? && ws.corked == 0 ==> |Concat(written)| < |delivered| + n.value
      ensures !rs.flowing && n.None? && ret.None? && ws.corked == 0 ==> delivered == Concat(written)
    {
      hide Concat;
      ghost var before := Announced();
      ret := Read(n);
      if ret.None? && (n.None? || n.value > 0) && !rs.ended { asked := Some(Ask(rs.length, before)); }
      if n.None? && ret.None? && !rs.flowing && ws.corked == 0 { Drained(); }
      if n.Some? && ret.None? && !rs.flowing && ws.corked == 0 && (ts.writechunk.None? || rs.ended) { AllBuffered(); }
    }

    /** With no chunk waiting, everything written has been delivered or is in the read buffer. */
    lemma AllBuffered()
      requires Valid() && (ts.writechunk.None? || rs.ended) && ws.corked == 0
      ensures delivered + Concat(rs.buffer) == Concat(written) && rs.length == |Concat(rs.buffer)|
    {
      hide Concat;
      ConcatNone<bv8>();
      var rest := (if ts.writechunk.Some? then [ts.writechunk.value] else []) + Unsent();
      assert written == transformed + rest;
      ConcatAdds(transformed, rest);
      if ts.writechunk.Some? {
        ConcatAdds([ts.writechunk.value], Unsent());
        ConcatAppend([], ts.writechunk.value);
        assert [] + [ts.writechunk.value] == [ts.writechunk.value];
      } else {
        assert rest == Unsent();
      }
      assert Concat(rest) == [];
      assert delivered + Concat(rs.buffer) + [] == delivered + Concat(rs.buffer) && Concat(transformed) + [] == Concat(transformed);
    }

    /** With the read buffer empty and no chunk waiting, everything written has been delivered. */
    lemma Drained()
      requires Valid() && rs.length == 0 && (ts.writechunk.None? || rs.ended) && ws.corked == 0
      ensures delivered == Concat(written)
    {
      hide Concat;
      AllBuffered();
      assert delivered + [] == delivered;
    }

    /** A reader that waits is told: once there is more than there was, or the end, it has been told since or is going to be. */
    lemma ToldOfMore()
      requires Valid() && asked.Some? && (rs.length > asked.value.length || rs.ended)
      ensures told + ticks.emits > asked.value.announced
    {
      hide Concat, ChunksKept, BytesKept, WritableWell, NothingLeft, Unsent;
    }

    /** In flowing mode, once the ticks that flow on are over, every byte written has been delivered, and the end is on its way if the stream has ended. */
    lemma AllFlows()
      requires Valid() && rs.flowing && ticks.emits == 0 && ticks.resumes == 0 && ws.corked == 0
      ensures delivered == Concat(written) && (rs.ended ==> ticks.ends > 0 || rs.endEmitted)
    {
      hide Concat;
      Drained();
    }

    /** Once the stream has been ended and all its ticks are over, its end has been passed on, and it has finished unless empty chunks are left in the write buffer. */
    lemma Finishes()
      requires Valid() && ws.ended && ws.corked == 0 && ticks.afterWrites == 0 && ts.writechunk.None?
      ensures rs.ended && ws.prefinished && Total(ws.buffer) == 0 && (ws.buffer == [] ==> ws.finished)
    {
      hide Concat, ChunksKept, BytesKept;
      ConcatNone<bv8>();
      assert Unsent() == ws.buffer;
    }

    /** The end event comes only when everything written has been delivered. */
    lemma EndsComplete()
      requires Valid() && rs.endEmitted && ws.corked == 0
      ensures delivered == Concat(written)
    {
      Drained();
    }

    method AfterWriteTick()
      requires Valid() && ticks.afterWrites > 0
      modifies this
      ensures Valid() && written == old(written)
      ensures ws.pendingcb == old(ws.pendingcb) - 1 && ticks.afterWrites == old(ticks.afterWrites) - 1
    {
      ticks := ticks.(afterWrites := ticks.afterWrites - 1);
      AfterWrite();
    }

    /** `emitReadable_` on its tick: the listeners make some calls, and then the stream flows. */
    method EmitReadableTick(calls: seq<Call>)
      requires Valid() && ticks.emits > 0
      modifies this
      ensures Valid() && old(written) <= written && told > old(told)
    {
      hide Concat, Total, Inv;
      var i := 0;
      while i < |calls|
        invariant 0 <= i <= |calls| && Valid() && old(written) <= written && ticks.emits >= old(ticks.emits) && told >= old(told)
      {
        Make(calls[i]);
        i := i + 1;
      }
      TakeEmit();
      FlowOn();
    }

    /** The same with the usual listener, which reads until there is nothing: it is given every byte written. */
    method EmitToReaderTick()
      requires Valid() && ticks.emits > 0
      modifies this
      ensures Valid() && written == old(written)
      ensures !rs.flowing && ws.corked == 0 ==> delivered == Concat(written)
    {
      hide Concat, Total, Inv;
      ReadAll();
      TakeEmit();
      FlowOn();
    }

    method TakeEmit()
      requires Valid() && ticks.emits > 0
      modifies `ticks, `told
      ensures Steady() && told == old(told) + 1
    {
      hide Concat, ChunksKept, BytesKept, WritableWell, NothingLeft, Unsent, Waiting;
      ticks := ticks.(emits := ticks.emits - 1);
      told := told + 1;
    }

    method FlowOn()
      requires Steady()
      modifies this
      ensures Valid() && told >= old(told) && written == old(written) && rs.flowing == old(rs.flowing) && ws.corked == old(ws.corked)
      ensures !rs.flowing ==> delivered == old(delivered)
    {
      hide Concat, ChunksKept, BytesKept, WritableWell, NothingLeft, Unsent, Waiting;
      Flow();
    }

    /** A listener that reads until it is told that there is nothing. */
    method ReadAll()
      requires Valid()
      modifies this
      ensures Valid() && written == old(written) && old(delivered) <= delivered && ticks.emits >= old(ticks.emits)
      ensures !rs.flowing && ws.corked == 0 ==> delivered == Concat(written)
    {
      hide Concat, Total, Inv;
      var chunk := ReadBytes(None);
      DeliveredNow();
      while chunk.Some?
        invariant Valid() && written == old(written) && old(delivered) <= delivered && ticks.emits >= old(ticks.emits) && |delivered| <= |Concat(written)|
        invariant chunk.None? && !rs.flowing && ws.corked == 0 ==> delivered == Concat(written)
        decreases |Concat(written)| - |delivered|, chunk.Some?
      {
        chunk := ReadBytes(None);
        DeliveredNow();
      }
    }

    lemma DeliveredNow()
      requires Valid()
      ensures |delivered| <= |Concat(written)|
    {
      hide Concat, ChunksKept, BytesKept, WritableWell, NothingLeft, Unsent;
      DeliveredBound();
    }

    /** One public call. */
    method Make(call: Call)
      requires Valid()
      modifies this
      ensures Valid() && old(written) <= written && ticks.emits >= old(ticks.emits) && told >= old(told)
    {
      hide Concat, Total, Inv;
      match call {
        case CallRead(n) => var chunk := ReadBytes(n);
        case CallWrite(chunk) => Write(chunk);
        case CallEnd(last) => End(last);
        case CallCork => Cork();
        case CallUncork => Uncork();
        case CallPause => Pause();
        case CallResume => Resume();
        case CallOnReadable => OnReadable();
      }
    }

    /** `maybeReadMore_`: reads ahead until the read buffer has reached its mark or brings nothing. */
    method ReadMoreTick()
      requires Valid() && rs.readingMore
      modifies this
      ensures Valid() && written == old(written) && !rs.readingMore && (!rs.flowing ==> NoneWaits())
    {
      hide Concat;
      var len := rs.length;
      var stop := false;
      while !stop && !rs.reading && !rs.flowing && !rs.ended && rs.length < rs.highWaterMark
        invariant Valid() && written == old(written) && (!stop ==> len == rs.length) && (stop && !rs.flowing ==> NoneWaits())
        decreases !stop, rs.highWaterMark - rs.length
      {
        var none := Read(Some(0));
        if len == rs.length {
          stop := true;
        } else {
          len := rs.length;
        }
      }
      rs := rs.(readingMore := false);
    }

    method EndTick()
      requires Valid() && ticks.ends > 0
      modifies `ticks, `rs
      ensures Valid() && (rs.endEmitted <==> old(rs.endEmitted) || rs.length == 0)
    {
      hide Concat;
      ticks := ticks.(ends := ticks.ends - 1);
      if !rs.endEmitted && rs.length == 0 {
        rs := rs.(endEmitted := true);
      }
    }

    method Resume()
      requires Valid()
      modifies this
      ensures Valid() && written == old(written) && rs.flowing && told >= old(told) && ticks.emits >= old(ticks.emits)
      ensures !old(rs.flowing) ==> ticks.resumes > 0
    {
      hide Concat;
      if !rs.flowing {
        rs := rs.(flowing := true);
        if !rs.reading {
          var none := Read(Some(0));
        }
        ticks := ticks.(resumes := ticks.resumes + 1);
      }
    }

    method ResumeTick()
      requires Valid() && ticks.resumes > 0
      modifies this
      ensures Valid() && written == old(written)
      ensures ticks.resumes == old(ticks.resumes) - 1
    {
      hide Concat;
      ticks := ticks.(resumes := ticks.resumes - 1);
      Flow();
      if rs.flowing && !rs.reading {
        var none := Read(Some(0));
      }
    }

    /** `on('readable')`: the first listener wants to be told of data, and has the stream look for some. */
    method OnReadable()
      requires Valid()
      modifies this
      ensures Valid() && written == old(written) && rs.flowing == old(rs.flowing) && told >= old(told) && ticks.emits >= old(ticks.emits)
      ensures !old(rs.endEmitted) ==> rs.readableListening
      ensures !old(rs.endEmitted) && !old(rs.readableListening) ==> rs.ended || rs.flowing || asked == Some(Ask(old(rs.length), old(Announced())))
      ensures !old(rs.endEmitted) && !old(rs.readableListening) && !old(rs.reading) ==> ticks.starts > 0
    {
      hide Concat, Total, Inv, Unsent;
      if !rs.endEmitted && !rs.readableListening {
        Note(rs.(readableListening := true, emittedReadable := false, needReadable := true));
        LengthIs();
        Listen();
        if !rs.reading {
          StartLater();
        } else if rs.length > 0 {
          CanTell();
          EmitReadable();
        }
      }
    }

    /** The listener waits to be told of data, unless the stream has ended. */
    ghost method Listen()
      requires Inv() && rs.needReadable && !rs.emittedReadable && rs.length >= 0
      modifies `asked
      ensures Inv() && asked == if rs.ended then old(asked) else Some(Ask(rs.length, Announced()))
    {
      hide Concat, ChunksKept, WritableWell, NothingLeft, Unsent, Waiting;
      if !rs.ended { asked := Some(Ask(rs.length, Announced())); }
    }

    method StartLater()
      requires Inv()
      modifies `ticks
      ensures Inv() && ticks == old(ticks).(starts := old(ticks).starts + 1)
    {
      hide Concat, ChunksKept, BytesKept, WritableWell, NothingLeft, Unsent, Waiting;
      ticks := ticks.(starts := ticks.starts + 1);
    }

    method ReadTick()
      requires Valid() && ticks.starts > 0
      modifies this
      ensures Valid() && written == old(written) && (!rs.flowing ==> NoneWaits())
      ensures ticks.starts == old(ticks.starts) - 1
    {
      hide Concat, Total, ChunksKept, WritableWell, NothingLeft;
      ticks := ticks.(starts := ticks.starts - 1);
      var none := Read(Some(0));
    }

    method Pause()
      requires Valid()
      modifies `rs
      ensures Valid() && !rs.flowing
    {
      hide Concat;
      rs := rs.(flowing := false);
    }
  }
}

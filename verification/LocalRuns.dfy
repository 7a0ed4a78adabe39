/**
 * Every interleaving of calls by the two ends of a queue, growth included, against one plain
 * sequence for each channel.
 */
module LocalRuns {
  import opened Helpers
  import opened KnownBytes
  import opened LocalQueue
  import opened RingRows
  import opened ThresholdQueue

  /** An end has no pointer, waits, has one for `width` bytes, or lost its pointer to a shutdown. */
  datatype End = Free | Waiting | Holding(width: nat) | Cut

  /** What the calls mean: no buffers, lengths or thresholds, only bytes and who holds a pointer. */
  datatype Plain = Plain(
    count: nat, queued: seq<Cells>, stored: seq<Cells>, writer: End, reader: End, readerGone: bool, writerGone: bool)
  {
    ghost predicate Valid() {
      && |queued| == |stored|
      && (forall c | 0 <= c < |queued| :: |queued[c]| == count)
      && (writer.Holding? ==> forall c | 0 <= c < |stored| :: |stored[c]| == writer.width)
      && (reader.Holding? ==> reader.width <= count)
      && (writer.Cut? ==> writerGone) && (reader.Cut? ==> readerGone)
    }

    function Channels(): nat {
      |queued|
    }
  }

  datatype Call =
    | GetWrite(n: nat, chan: nat)
    | Put(chan: nat, off: nat, bytes: seq<Byte>)
    | Commit(n: nat)
    | WakeWriter
    | GetRead(n: nat, chan: nat)
    | Release(n: nat)
    | WakeReader
    | GrowTo(len: nat, thresh: nat)
    | Resolve
    | ReaderLeaves
    | WriterLeaves

  datatype Reply = Done | Pointer(buffer: nat) | Bytes(bytes: seq<Byte>) | Ended | Broken | Waits

  /** What the calls demand of their callers; a pointer is used within its width by the end that has it. */
  predicate Allowed(p: Plain, call: Call) {
    match call
    case GetWrite(n, chan) => chan < p.Channels() && (p.writer.Free? || (p.writer.Holding? && n <= p.writer.width))
    case Put(chan, off, bytes) => chan < p.Channels() && p.writer.Holding? && off + |bytes| <= p.writer.width
    case Commit(n) => p.writer.Holding? && n <= p.writer.width
    case WakeWriter => p.writer.Waiting?
    case GetRead(n, chan) => chan < p.Channels() && (p.reader.Free? || (p.reader.Holding? && n <= p.reader.width))
    case Release(n) => p.reader.Holding? && n <= p.reader.width
    case WakeReader => p.reader.Waiting?
    case GrowTo(_, _) => !(p.writer.Holding? && p.reader.Holding?) && !p.writer.Cut? && !p.reader.Cut?
    case Resolve => p.writer.Waiting? && !p.readerGone && !p.writerGone
    case ReaderLeaves => true
    case WriterLeaves => true
  }

  function Overlaid(p: Plain, chan: nat, off: nat, bytes: seq<Byte>): seq<Cells>
    requires p.Valid() && Allowed(p, Put(chan, off, bytes))
  {
    p.stored[chan := Overlay(p.stored[chan], off, Known(bytes))]
  }

  function Longer(p: Plain, n: nat): (r: seq<Cells>)
    requires p.Valid() && Allowed(p, Commit(n))
    ensures |r| == |p.queued| && forall c | 0 <= c < |r| :: r[c] == p.queued[c] + p.stored[c][..n]
  {
    seq(|p.queued|, c requires 0 <= c < |p.queued| => p.queued[c] + p.stored[c][..n])
  }

  function Shorter(p: Plain, n: nat): (r: seq<Cells>)
    requires p.Valid() && n <= p.count
    ensures |r| == |p.queued| && forall c | 0 <= c < |r| :: r[c] == p.queued[c][n..]
  {
    seq(|p.queued|, c requires 0 <= c < |p.queued| => p.queued[c][n..])
  }

  /** The answers the plain sequences allow. */
  predicate Fits(p: Plain, call: Call, reply: Reply)
    requires p.Valid() && Allowed(p, call)
  {
    match call
    case GetWrite(n, _) =>
      && (p.writer.Holding? ==> reply.Pointer?)
      && (reply.Pointer? || (reply.Broken? && (p.readerGone || p.writerGone))
          || (reply.Waits? && !p.readerGone && !p.writerGone))
    case Commit(_) => reply == if p.writerGone then Broken else Done
    case GetRead(n, chan) =>
      && (p.reader.Holding? ==> reply.Bytes?)
      && (reply.Bytes? ==> n <= p.count && Matches(reply.bytes, p.queued[chan][..n]))
      && (reply.Bytes? || (reply.Ended? && p.writerGone) || (reply.Broken? && p.readerGone)
          || (reply.Waits? && !p.readerGone && !p.writerGone))
    case Release(_) => reply == if p.readerGone then Broken else Done
    case WakeWriter => reply.Done? || (reply.Waits? && !p.readerGone && !p.writerGone)
    case WakeReader => reply.Done? || (reply.Waits? && !p.readerGone && !p.writerGone)
    case _ => reply == Done
  }

  function Given(p: Plain, n: nat): (r: Plain)
    requires p.Valid()
    ensures r.Valid()
  {
    p.(writer := Holding(n), stored := seq(p.Channels(), _ => Unknown(n)))
  }

  function Committed(p: Plain, n: nat): (r: Plain)
    requires p.Valid() && Allowed(p, Commit(n))
    ensures r.Valid()
  {
    p.(count := p.count + n, queued := Longer(p, n), writer := Free)
  }

  function Released(p: Plain, n: nat): (r: Plain)
    requires p.Valid() && Allowed(p, Release(n))
    ensures r.Valid()
  {
    p.(count := p.count - n, queued := Shorter(p, n), reader := Free)
  }

  /** The plain sequences after a call that was answered so. */
  function Next(p: Plain, call: Call, reply: Reply): (r: Plain)
    requires p.Valid() && Allowed(p, call) && Fits(p, call, reply)
    ensures r.Valid()
  {
    match call
    case GetWrite(n, _) =>
      if p.writer.Holding? || reply.Broken? then p
      else if reply.Waits? then p.(writer := Waiting)
      else Given(p, n)
    case Put(chan, off, bytes) => p.(stored := Overlaid(p, chan, off, bytes))
    case Commit(n) => if p.writerGone then p.(writer := Cut) else Committed(p, n)
    case WakeWriter => if reply.Done? then p.(writer := Free) else p
    case GetRead(n, _) =>
      if p.reader.Holding? || reply.Ended? || reply.Broken? then p
      else if reply.Waits? then p.(reader := Waiting)
      else p.(reader := Holding(n))
    case Release(n) => if p.readerGone then p.(reader := Cut) else Released(p, n)
    case WakeReader => if reply.Done? then p.(reader := Free) else p
    case GrowTo(_, _) => p
    case Resolve => p
    case ReaderLeaves => p.(readerGone := true)
    case WriterLeaves => p.(writerGone := true)
  }

  ghost predicate WriterIs(q: LocalQueue, p: Plain, at: nat)
    requires q.Valid() && p.Valid() && q.queue.Channels() == p.Channels()
    reads q
  {
    match p.writer
    case Free => !q.inenqueue && q.writerequest == 0 && !q.writerCut
    case Waiting => !q.inenqueue && !q.writerCut && q.writerequest > 0
    case Holding(width) =>
      && q.inenqueue && !q.writerCut && q.enqueuethresh == width && at == q.Writer().buffer
      && forall c | 0 <= c < p.Channels() :: Matches(q.Writer().space[c][..width], p.stored[c])
    case Cut => !q.inenqueue && q.writerequest == 0
  }

  ghost predicate ReaderIs(q: LocalQueue, p: Plain)
    reads q
  {
    match p.reader
    case Free => !q.indequeue && q.readrequest == 0 && !q.readerCut
    case Waiting => !q.indequeue && !q.readerCut && q.readrequest > 0
    case Holding(width) => q.indequeue && !q.readerCut && q.dequeuethresh == width
    case Cut => !q.indequeue && q.readrequest == 0
  }

  /** The object holds these bytes, and the writer's pointer, if it has one, is to buffer `at`. */
  ghost predicate Represents(q: LocalQueue, p: Plain, at: nat)
    reads q
  {
    Holds(q, p) && WriterIs(q, p, at) && ReaderIs(q, p)
  }

  ghost predicate Holds(q: LocalQueue, p: Plain)
    reads q
  {
    && q.Valid() && p.Valid() && q.queue.Channels() == p.Channels() && q.queue.count == p.count
    && q.readshutdown == p.readerGone && q.writeshutdown == p.writerGone
    && forall c | 0 <= c < p.Channels() :: Matches(q.queue.contents[c], p.queued[c])
  }

  // ---- one method a call

  method DoGetWrite(q: LocalQueue, n: nat, chan: nat, at: nat, ghost p: Plain) returns (reply: Reply, at': nat)
    requires Represents(q, p, at) && Allowed(p, GetWrite(n, chan))
    modifies q
    ensures Fits(p, GetWrite(n, chan), reply) && Represents(q, Next(p, GetWrite(n, chan), reply), at')
  {
    var r := q.GetRawEnqueuePtr(n, chan);
    assert ReaderIs(q, p);
    assert p.writer.Holding? ==> WriterIs(q, p, at);
    AfterWrite(q, n, chan, r, at, p);
    reply := AnsweredAs(r);
    at' := if r.Pointer? then r.buffer else at;
  }

  function AnsweredAs(r: ForWriting): Reply {
    match r
    case Pointer(buffer) => Reply.Pointer(buffer)
    case WriterBroken => Broken
    case WriterWaits => Waits
  }

  lemma AfterWrite(q: LocalQueue, n: nat, chan: nat, r: ForWriting, at: nat, p: Plain)
    requires Holds(q, p) && Allowed(p, GetWrite(n, chan)) && ReaderIs(q, p) && q.Answered(n, r) && !q.writerCut
    requires if p.writer.Holding? then r.Pointer? && WriterIs(q, p, at) else q.enqueuethresh == n
    ensures Fits(p, GetWrite(n, chan), AnsweredAs(r))
    ensures Represents(q, Next(p, GetWrite(n, chan), AnsweredAs(r)), if r.Pointer? then r.buffer else at)
  {
  }

  method DoPut(q: LocalQueue, chan: nat, off: nat, bytes: seq<Byte>, at: nat, ghost p: Plain)
    requires Represents(q, p, at) && Allowed(p, Put(chan, off, bytes))
    modifies q
    ensures Represents(q, Next(p, Put(chan, off, bytes), Done), at)
  {
    ghost var space := q.Writer().space;
    q.Store(at, chan, off, bytes);
    forall c | 0 <= c < p.Channels()
      ensures Matches(q.Writer().space[c][..p.writer.width], Overlaid(p, chan, off, bytes)[c])
    {
      if c == chan {
        StoredMatches(space[c], p.writer.width, p.stored[c], off, bytes);
      }
    }
  }

  /** What a store does to the first `width` bytes at the writing end. */
  lemma StoredMatches(row: seq<Byte>, width: nat, p: Cells, off: nat, bytes: seq<Byte>)
    requires width <= |row| && off + |bytes| <= width && Matches(row[..width], p)
    ensures Matches(Overlay(row, off, bytes)[..width], Overlay(p, off, Known(bytes)))
  {
    assert Overlay(row, off, bytes)[..width] == Overlay(row[..width], off, bytes);
    OverlayMatches(row[..width], p, off, bytes);
  }

  method DoCommit(q: LocalQueue, n: nat, at: nat, ghost p: Plain) returns (reply: Reply)
    requires Represents(q, p, at) && Allowed(p, Commit(n))
    modifies q
    ensures Fits(p, Commit(n), reply) && Represents(q, Next(p, Commit(n), reply), at)
  {
    var ok := q.Enqueue(n);
    reply := if ok then Done else Broken;
  }

  method DoWakeWriter(q: LocalQueue, at: nat, ghost p: Plain) returns (reply: Reply)
    requires Represents(q, p, at) && Allowed(p, WakeWriter)
    modifies q
    ensures Fits(p, WakeWriter, reply) && Represents(q, Next(p, WakeWriter, reply), at)
  {
    reply := Waits;
    if !q.WriteBlocked() {
      q.WriterWakes();
      reply := Done;
    }
  }

  method DoGetRead(q: LocalQueue, n: nat, chan: nat, at: nat, ghost p: Plain) returns (reply: Reply)
    requires Represents(q, p, at) && Allowed(p, GetRead(n, chan))
    modifies q
    ensures Fits(p, GetRead(n, chan), reply) && Represents(q, Next(p, GetRead(n, chan), reply), at)
  {
    var r := q.GetRawDequeuePtr(n, chan);
    assert WriterIs(q, p, at);
    AfterRead(q, n, chan, r, at, p);
    reply := ToldAs(r);
  }

  lemma AfterRead(q: LocalQueue, n: nat, chan: nat, r: ForReading, at: nat, p: Plain)
    requires Holds(q, p) && Allowed(p, GetRead(n, chan)) && WriterIs(q, p, at) && q.Told(n, chan, r) && !q.readerCut
    requires if p.reader.Holding? then r.Data? && q.dequeuethresh == p.reader.width else q.dequeuethresh == n
    ensures Fits(p, GetRead(n, chan), ToldAs(r)) && Represents(q, Next(p, GetRead(n, chan), ToldAs(r)), at)
  {
    if n <= p.count {
      SliceMatches(q.queue.contents[chan], p.queued[chan], n);
    }
  }

  function ToldAs(r: ForReading): Reply {
    match r
    case Data(bytes) => Bytes(bytes)
    case EndOfData => Ended
    case ReaderBroken => Broken
    case ReaderWaits => Waits
  }

  method DoRelease(q: LocalQueue, n: nat, at: nat, ghost p: Plain) returns (reply: Reply)
    requires Represents(q, p, at) && Allowed(p, Release(n))
    modifies q
    ensures Fits(p, Release(n), reply) && Represents(q, Next(p, Release(n), reply), at)
  {
    forall c | 0 <= c < p.Channels()
      ensures Matches(q.queue.contents[c][n..], p.queued[c][n..])
    {
      SliceMatches(q.queue.contents[c], p.queued[c], n);
    }
    var ok := q.Dequeue(n);
    reply := if ok then Done else Broken;
  }

  method DoWakeReader(q: LocalQueue, at: nat, ghost p: Plain) returns (reply: Reply)
    requires Represents(q, p, at) && Allowed(p, WakeReader)
    modifies q
    ensures Fits(p, WakeReader, reply) && Represents(q, Next(p, WakeReader, reply), at)
  {
    reply := Waits;
    if !q.ReadBlocked() {
      q.ReaderWakes();
      reply := Done;
    }
  }

  method DoGrow(q: LocalQueue, len: nat, thresh: nat, at: nat, ghost p: Plain)
    requires Represents(q, p, at) && Allowed(p, GrowTo(len, thresh))
    modifies q
    ensures Represents(q, p, at)
  {
    q.UnlockedGrow(len, thresh);
  }

  method DoResolve(q: LocalQueue, at: nat, ghost p: Plain)
    requires Represents(q, p, at) && Allowed(p, Resolve)
    modifies q
    ensures Represents(q, p, at)
  {
    q.Detect();
  }

  method DoLeave(q: LocalQueue, reader: bool, at: nat, ghost p: Plain)
    requires Represents(q, p, at)
    modifies q
    ensures Represents(q, if reader then p.(readerGone := true) else p.(writerGone := true), at)
  {
    if reader {
      q.ShutdownReader();
    } else {
      q.ShutdownWriter();
    }
  }

  /** One call by either end; `at` is the buffer the writer's pointer is to. */
  method Do(q: LocalQueue, call: Call, at: nat, ghost p: Plain) returns (reply: Reply, at': nat)
    requires Represents(q, p, at) && Allowed(p, call)
    modifies q
    ensures Fits(p, call, reply) && Represents(q, Next(p, call, reply), at')
  {
    reply, at' := Done, at;
    match call
    case GetWrite(n, chan) => reply, at' := DoGetWrite(q, n, chan, at, p);
    case Put(chan, off, bytes) => DoPut(q, chan, off, bytes, at, p);
    case Commit(n) => reply := DoCommit(q, n, at, p);
    case WakeWriter => reply := DoWakeWriter(q, at, p);
    case GetRead(n, chan) => reply := DoGetRead(q, n, chan, at, p);
    case Release(n) => reply := DoRelease(q, n, at, p);
    case WakeReader => reply := DoWakeReader(q, at, p);
    case GrowTo(len, thresh) => DoGrow(q, len, thresh, at, p);
    case Resolve => DoResolve(q, at, p);
    case ReaderLeaves => DoLeave(q, true, at, p);
    case WriterLeaves => DoLeave(q, false, at, p);
  }

  // ---- runs

  datatype Step = Step(call: Call, reply: Reply)

  /** The plain sequences go from `p` to `p'` by these calls and their answers. */
  predicate Runs(p: Plain, trace: seq<Step>, p': Plain)
    requires p.Valid()
    decreases |trace|
  {
    if trace == [] then p == p'
    else
      && Allowed(p, trace[0].call) && Fits(p, trace[0].call, trace[0].reply)
      && Runs(Next(p, trace[0].call, trace[0].reply), trace[1..], p')
  }

  /** The trace makes every call of the list in turn, except those its caller may not make there. */
  predicate Follows(p: Plain, calls: seq<Call>, trace: seq<Step>)
    requires p.Valid()
    decreases |calls|
  {
    if calls == [] then trace == []
    else if !Allowed(p, calls[0]) then Follows(p, calls[1..], trace)
    else
      && trace != [] && trace[0].call == calls[0] && Fits(p, calls[0], trace[0].reply)
      && Follows(Next(p, calls[0], trace[0].reply), calls[1..], trace[1..])
  }

  /**
   * Any calls of the two ends in any order, growing and shutting down included: the object
   * answers as the plain sequences do and stays alike.
   */
  method Run(q: LocalQueue, calls: seq<Call>, at: nat, p: Plain) returns (trace: seq<Step>, at': nat, p': Plain)
    requires Represents(q, p, at)
    modifies q
    ensures Represents(q, p', at') && Runs(p, trace, p') && Follows(p, calls, trace)
    decreases |calls|
  {
    trace, at', p' := [], at, p;
    if calls == [] {
      return;
    }
    if !Allowed(p, calls[0]) {
      trace, at', p' := Run(q, calls[1..], at, p);
      return;
    }
    var reply;
    reply, at' := Do(q, calls[0], at, p);
    var rest;
    rest, at', p' := Run(q, calls[1..], at', Next(p, calls[0], reply));
    trace := [Step(calls[0], reply)] + rest;
    assert trace[1..] == rest;
  }

  function Fresh(channels: nat): Plain {
    Plain(0, seq(channels, _ => []), seq(channels, _ => []), Free, Free, false, false)
  }

  method Start(length: nat, maxthresh: nat, channels: nat, grows: bool) returns (q: LocalQueue)
    ensures fresh(q) && Represents(q, Fresh(channels), 0)
  {
    q := new LocalQueue(length, maxthresh, channels, grows);
  }

  // ---- what the plain sequences promise

  /** The cells one call adds to a channel. */
  function Added(p: Plain, step: Step, c: nat): Cells
    requires p.Valid() && Allowed(p, step.call) && c < p.Channels()
  {
    if step.call.Commit? && !p.writerGone then p.stored[c][..step.call.n] else []
  }

  /** The cells one call takes from a channel. */
  function Removed(p: Plain, step: Step, c: nat): Cells
    requires p.Valid() && Allowed(p, step.call) && c < p.Channels()
  {
    if step.call.Release? && !p.readerGone then p.queued[c][..step.call.n] else []
  }

  function AddedAll(p: Plain, trace: seq<Step>, p': Plain, c: nat): Cells
    requires p.Valid() && Runs(p, trace, p') && c < p.Channels()
    decreases |trace|
  {
    if trace == [] then [] else
    var p1 := Next(p, trace[0].call, trace[0].reply);
    StepInOrder(p, trace[0], c);
    Added(p, trace[0], c) + AddedAll(p1, trace[1..], p', c)
  }

  function RemovedAll(p: Plain, trace: seq<Step>, p': Plain, c: nat): Cells
    requires p.Valid() && Runs(p, trace, p') && c < p.Channels()
    decreases |trace|
  {
    if trace == [] then [] else
    var p1 := Next(p, trace[0].call, trace[0].reply);
    StepInOrder(p, trace[0], c);
    Removed(p, trace[0], c) + RemovedAll(p1, trace[1..], p', c)
  }

  lemma StepInOrder(p: Plain, step: Step, c: nat)
    requires p.Valid() && Allowed(p, step.call) && Fits(p, step.call, step.reply) && c < p.Channels()
    ensures var p' := Next(p, step.call, step.reply);
            && p'.Channels() == p.Channels()
            && p.queued[c] + Added(p, step, c) == Removed(p, step, c) + p'.queued[c]
  {
  }

  /** First in, first out on every channel, over any run and any growth: nothing lost, repeated or reordered. */
  lemma {:induction false} FirstInFirstOut(p: Plain, trace: seq<Step>, p': Plain, c: nat)
    requires p.Valid() && Runs(p, trace, p') && c < p.Channels()
    ensures p'.Channels() == p.Channels()
    ensures p.queued[c] + AddedAll(p, trace, p', c) == RemovedAll(p, trace, p', c) + p'.queued[c]
    decreases |trace|
  {
    if trace != [] {
      var p1 := Next(p, trace[0].call, trace[0].reply);
      StepInOrder(p, trace[0], c);
      FirstInFirstOut(p1, trace[1..], p', c);
      Regroup(p.queued[c], Added(p, trace[0], c), AddedAll(p1, trace[1..], p', c), p1.queued[c],
              Removed(p, trace[0], c), RemovedAll(p1, trace[1..], p', c), p'.queued[c]);
    }
  }

  predicate OnlyWriter(call: Call) {
    call.GetWrite? || call.Put? || call.Commit? || call.WakeWriter?
  }

  predicate OnlyReader(call: Call) {
    call.GetRead? || call.Release? || call.WakeReader?
  }

  lemma OtherStep(p: Plain, step: Step)
    requires p.Valid() && Allowed(p, step.call) && Fits(p, step.call, step.reply)
    ensures var p' := Next(p, step.call, step.reply);
            && (!OnlyWriter(step.call) ==> p'.stored == p.stored && p'.writer == p.writer)
            && (!OnlyReader(step.call) ==>
                  p'.reader == p.reader && p'.count >= p.count && p'.Channels() == p.Channels()
                  && forall c | 0 <= c < p.Channels() :: p.queued[c] <= p'.queued[c])
  {
  }

  /** Whatever the reader does and however the queue grows, a writer's pointer and what it stored stand. */
  lemma {:induction false} StoredBytesStand(p: Plain, trace: seq<Step>, p': Plain)
    requires p.Valid() && Runs(p, trace, p') && forall step | step in trace :: !OnlyWriter(step.call)
    ensures p'.stored == p.stored && p'.writer == p.writer
    decreases |trace|
  {
    if trace != [] {
      assert trace[0] in trace && forall step | step in trace[1..] :: step in trace;
      OtherStep(p, trace[0]);
      StoredBytesStand(Next(p, trace[0].call, trace[0].reply), trace[1..], p');
    }
  }

  /** Whatever the writer does and however the queue grows, the bytes a reader has been shown stand. */
  lemma {:induction false} ShownBytesStand(p: Plain, trace: seq<Step>, p': Plain, c: nat)
    requires p.Valid() && Runs(p, trace, p') && forall step | step in trace :: !OnlyReader(step.call)
    requires c < p.Channels()
    ensures p'.reader == p.reader && p'.Channels() == p.Channels() && p.queued[c] <= p'.queued[c]
    decreases |trace|
  {
    if trace != [] {
      assert trace[0] in trace && forall step | step in trace[1..] :: step in trace;
      OtherStep(p, trace[0]);
      ShownBytesStand(Next(p, trace[0].call, trace[0].reply), trace[1..], p', c);
    }
  }
}

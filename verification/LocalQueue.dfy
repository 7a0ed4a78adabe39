/** A queue between two nodes: blocking calls, growth under outstanding pointers, shutdown. */
module LocalQueue {
  import opened Helpers
  import opened RingRows
  import opened ThresholdQueue

  /** A writer's call returns a pointer, fails because an end is shut down, or waits. */
  datatype ForWriting = Pointer(buffer: nat) | WriterBroken | WriterWaits

  /** A reader's call returns bytes, nothing because the writer is gone, fails, or waits. */
  datatype ForReading = Data(bytes: seq<Byte>) | EndOfData | ReaderBroken | ReaderWaits

  /** Two queues begin with the same `n` bytes on every channel. */
  ghost predicate SameFront(q: Fifo, r: Fifo, n: nat)
    requires q.Valid() && r.Valid() && q.Channels() == r.Channels() && n <= q.count && n <= r.count
  {
    forall c | 0 <= c < q.Channels() :: q.contents[c][..n] == r.contents[c][..n]
  }

  class LocalQueue {
    /** Whether the kernel lets queues grow. */
    const grows: bool
    var queue: Fifo
    var oldqueue: Option<Fifo>
    var enqueueUseOld: bool
    var dequeueUseOld: bool
    var inenqueue: bool
    var indequeue: bool
    var enqueuethresh: nat
    var dequeuethresh: nat
    var readrequest: nat
    var writerequest: nat
    var readshutdown: bool
    var writeshutdown: bool
    /** The name of the next buffer to be allocated. */
    var nextBuffer: nat
    /** Whether a shutdown has cut an end off between getting its pointer and giving it back. */
    ghost var writerCut: bool
    ghost var readerCut: bool

    /** The queue a writer's pointer points into. */
    ghost function Writer(): Fifo
      reads this
    {
      if enqueueUseOld && oldqueue.Some? then oldqueue.value else queue
    }

    /** The queue a reader's pointer points into. */
    ghost function Reader(): Fifo
      reads this
    {
      if dequeueUseOld && oldqueue.Some? then oldqueue.value else queue
    }

    /** The queue set aside, if there is one, belongs to exactly one end. */
    ghost predicate Linked()
      reads this
    {
      && queue.Valid() && queue.buffer < nextBuffer
      && (oldqueue.Some? ==>
            && oldqueue.value.Valid() && oldqueue.value.Channels() == queue.Channels()
            && oldqueue.value.maxThreshold <= queue.maxThreshold && oldqueue.value.buffer < queue.buffer)
      && (oldqueue.Some? <==> enqueueUseOld || dequeueUseOld)
      && !(enqueueUseOld && dequeueUseOld)
    }

    /** It is kept only while that end's pointer is out. */
    ghost predicate Needed()
      reads this
    {
      && (enqueueUseOld ==> inenqueue || writerCut) && (dequeueUseOld ==> indequeue || readerCut)
      && (writerCut ==> writeshutdown) && (readerCut ==> readshutdown)
      && (writerequest > 0 ==> !inenqueue) && (readrequest > 0 ==> !indequeue)
    }

    /** A pointer that is out still has behind it what it was given for. */
    ghost predicate Promised()
      requires Linked()
      reads this
    {
      && (inenqueue ==> enqueuethresh <= queue.Freespace() && enqueuethresh <= Writer().Freespace()
                        && enqueuethresh <= Writer().maxThreshold)
      && (indequeue ==>
            && dequeuethresh <= queue.count && dequeuethresh <= Reader().count && dequeuethresh <= Reader().maxThreshold
            && SameFront(Reader(), queue, dequeuethresh))
    }

    ghost predicate Valid()
      reads this
    {
      Linked() && Needed() && Promised() && OneCanMove()
    }

    predicate ReadBlocked()
      reads this
    {
      queue.count < readrequest && !(readshutdown || writeshutdown)
    }

    predicate WriteBlocked()
      reads this
    {
      queue.Freespace() < writerequest && !(readshutdown || writeshutdown)
    }

    /** With growth, the two ends are never both waiting with unmet requests. */
    ghost predicate OneCanMove()
      reads this
    {
      grows ==>
        && !(ReadBlocked() && WriteBlocked())
        && readrequest <= queue.maxThreshold && writerequest <= queue.maxThreshold
    }

    constructor (length: nat, maxthresh: nat, channels: nat, grows: bool)
      ensures Valid() && queue.Channels() == channels && forall c | 0 <= c < channels :: queue.contents[c] == []
      ensures queue.count == 0 && !inenqueue && !indequeue && readrequest == writerequest == 0
      ensures !readshutdown && !writeshutdown && !writerCut && !readerCut && this.grows == grows
      ensures queue.maxThreshold == Max(maxthresh, 1) && queue.queueLength == Max(length, queue.maxThreshold)
    {
      this.grows := grows;
      var q := AllocateBuf(0, length, maxthresh, channels);
      queue, nextBuffer := q, 1;
      oldqueue, enqueueUseOld, dequeueUseOld, inenqueue, indequeue := None, false, false, false, false;
      enqueuethresh, dequeuethresh, readrequest, writerequest := 0, 0, 0, 0;
      readshutdown, writeshutdown, readerCut, writerCut := false, false, false, false;
      new;
      assert forall c | 0 <= c < channels :: |queue.contents[c]| == 0;
    }

    /** A writer's store through its pointer, wherever the buffer is by now. */
    method Store(buffer: nat, chan: nat, off: nat, bytes: seq<Byte>)
      requires Valid() && inenqueue && buffer == Writer().buffer && chan < queue.Channels()
           && off + |bytes| <= enqueuethresh
      modifies this`queue, this`oldqueue
      ensures Valid() && queue == old(queue).(space := queue.space) && Writer() == old(Writer()).Put(chan, off, bytes)
      ensures dequeueUseOld ==> oldqueue == old(oldqueue)
    {
      if enqueueUseOld {
        oldqueue := Some(oldqueue.value.Put(chan, off, bytes));
      } else {
        queue := queue.Put(chan, off, bytes);
      }
    }

    // ---- growth

    /** The queue is `q` at twice the request, if that is longer, with the request as its threshold. */
    ghost predicate Doubled(q: Fifo, thresh: nat)
      reads this`queue
    {
      queue.queueLength == Max(q.queueLength, 2 * thresh) && queue.maxThreshold == thresh
    }

    /** The queue is `q` with at least this length, and its old one if that was longer. */
    ghost predicate WidenedTo(q: Fifo, length: nat)
      reads this`queue
    {
      queue.queueLength == Max(q.queueLength, length) && queue.maxThreshold == q.maxThreshold
    }

    /** What the source asserts before it grows: one pointer out at most, the one a buffer was set aside for. */
    predicate CanGrow()
      reads this
    {
      !(inenqueue && indequeue) && (oldqueue.Some? ==> enqueueUseOld == inenqueue && dequeueUseOld == indequeue)
    }

    /** A pointer that is out keeps its buffer, which is set aside. Only one of the two may be out. */
    method UnlockedGrow(queueLen: nat, maxThresh: nat)
      requires Valid() && (CanGrow() || (queueLen <= queue.queueLength && maxThresh <= queue.maxThreshold))
      modifies this`oldqueue, this`enqueueUseOld, this`dequeueUseOld, this`queue, this`nextBuffer
      ensures Valid() && queue.count == old(queue.count) && queue.contents == old(queue.contents)
      ensures queue.maxThreshold == Max(old(queue.maxThreshold), maxThresh)
      ensures queue.queueLength == Max(Max(old(queue.queueLength), queueLen), queue.maxThreshold)
      ensures old(queueLen <= queue.queueLength && maxThresh <= queue.maxThreshold) ==> queue == old(queue)
      ensures inenqueue ==> Writer() == old(Writer())
      ensures indequeue ==> Reader() == old(Reader())
    {
      if queueLen <= queue.queueLength && maxThresh <= queue.maxThreshold {
        return;
      }
      var grown := Grow(queue, queueLen, maxThresh, nextBuffer);
      Adopt(grown);
    }

    /** Go over to a larger copy of the queue. */
    method Adopt(grown: Fifo)
      requires Valid() && CanGrow() && grown.Valid() && grown.contents == queue.contents && grown.count == queue.count
      requires grown.buffer == nextBuffer
      requires grown.queueLength >= queue.queueLength && grown.maxThreshold >= queue.maxThreshold
      modifies this`oldqueue, this`enqueueUseOld, this`dequeueUseOld, this`queue, this`nextBuffer
      ensures Valid() && queue == grown
      ensures inenqueue ==> Writer() == old(Writer())
      ensures indequeue ==> Reader() == old(Reader())
    {
      if oldqueue.None? && (inenqueue || indequeue) {
        enqueueUseOld := inenqueue;
        dequeueUseOld := indequeue;
        oldqueue := Some(queue);
      }
      queue, nextBuffer := grown, nextBuffer + 1;
    }

    /** Deadlock resolution for a blocked writer: afterwards it can go on. */
    method Detect()
      requires Valid() && writerequest > 0 && !readshutdown && !writeshutdown
      modifies this`oldqueue, this`enqueueUseOld, this`dequeueUseOld, this`queue, this`nextBuffer
      ensures Valid() && queue.count == old(queue.count) && queue.contents == old(queue.contents)
      ensures queue.Freespace() >= writerequest && queue.maxThreshold >= writerequest && !WriteBlocked()
      ensures queue.queueLength == Max(old(queue.queueLength), queue.count + writerequest)
      ensures indequeue ==> Reader() == old(Reader())
    {
      UnlockedGrow(queue.count + writerequest, writerequest);
    }

    // ---- the writing end

    method InternalGetRawEnqueuePtr(thresh: nat, chan: nat) returns (p: Option<nat>)
      requires Valid() && chan < queue.Channels()
      requires if inenqueue then thresh <= enqueuethresh else !enqueueUseOld
      ensures p == if inenqueue then Some(Writer().buffer) else queue.GetRawEnqueuePtr(thresh)
    {
      if enqueueUseOld {
        p := oldqueue.value.GetRawEnqueuePtr(thresh);
        assert p.Some?;
      } else {
        p := queue.GetRawEnqueuePtr(thresh);
      }
    }

    /** Commit what the writer stored through its pointer, from the old buffer if it is there. */
    method InternalEnqueue(count: nat)
      requires Linked() && count <= queue.Freespace() && count <= Writer().Freespace() && count <= Writer().maxThreshold
      modifies this`enqueueUseOld, this`oldqueue, this`queue
      ensures Linked() && !enqueueUseOld && dequeueUseOld == old(dequeueUseOld)
      ensures old(dequeueUseOld) ==> oldqueue == old(oldqueue)
      ensures queue == old(queue).(count := old(queue.count) + count, contents := queue.contents, space := queue.space)
      ensures queue.Channels() == old(queue.Channels())
      ensures forall c | 0 <= c < queue.Channels() ::
           queue.contents[c] == old(queue.contents[c]) + old(Writer().space[c])[..count]
    {
      if enqueueUseOld {
        var aside := oldqueue.value;
        aside := aside.Dequeue(aside.count);
        aside := Commit(aside, count);
        queue := CopyAll(aside, queue);
        enqueueUseOld := false;
        oldqueue := None;
      } else {
        queue := Commit(queue, count);
      }
    }

    /** Take a pointer if there is one to be had. */
    method StartWriting(thresh: nat, chan: nat) returns (p: Option<nat>)
      requires Valid() && chan < queue.Channels() && writerequest == 0
      requires if inenqueue then thresh <= enqueuethresh else !enqueueUseOld && enqueuethresh == thresh
      modifies this`inenqueue
      ensures Valid() && inenqueue == p.Some? && (old(inenqueue) ==> p.Some?)
      ensures p.Some? ==> p.value == Writer().buffer
      ensures p.None? ==> queue.GetRawEnqueuePtr(thresh).None?
    {
      p := InternalGetRawEnqueuePtr(thresh, chan);
      if p.Some? {
        inenqueue := true;
      }
    }

    /** One turn of the writer's loop: an answer, or a larger queue to try again on. */
    method TryToWrite(thresh: nat, chan: nat, grown: bool) returns (r: Option<ForWriting>, grown': bool)
      requires Valid() && chan < queue.Channels() && writerequest == 0
      requires if inenqueue then thresh <= enqueuethresh else !enqueueUseOld && enqueuethresh == thresh
      requires grown ==> queue.GetRawEnqueuePtr(thresh).Some?
      modifies this`inenqueue, this`writerequest,
               this`oldqueue, this`enqueueUseOld, this`dequeueUseOld, this`queue, this`nextBuffer
      ensures Valid() && queue.count == old(queue.count) && queue.contents == old(queue.contents)
      ensures indequeue ==> Reader() == old(Reader())
      ensures if old(inenqueue) then inenqueue && Writer() == old(Writer()) else inenqueue || !enqueueUseOld
      ensures old(inenqueue || queue.GetRawEnqueuePtr(thresh).Some?) ==> r.Some? && r.value.Pointer?
      ensures r.None? ==> writerequest == 0 && !inenqueue && thresh <= queue.maxThreshold
      ensures r.None? ==> if grown' then queue.GetRawEnqueuePtr(thresh).Some? else old(queue.maxThreshold) < thresh
      ensures r.Some? ==> Answered(thresh, r.value)
      ensures r.Some? ==> queue == old(queue) && grown' == grown
      ensures r.None? ==> grows && !grown && !readshutdown && !writeshutdown
      ensures r.None? ==> old(!inenqueue && queue.GetRawEnqueuePtr(thresh).None?)
      ensures r.None? && old(queue.maxThreshold) < thresh ==> Doubled(old(queue), thresh) && !grown'
      ensures r.None? && thresh <= old(queue.maxThreshold) ==>
                ReadBlocked() && grown' && WidenedTo(old(queue), readrequest + thresh)
    {
      var p := StartWriting(thresh, chan);
      grown' := grown;
      if p.Some? {
        return Some(Pointer(p.value)), grown';
      }
      if readshutdown || writeshutdown {
        return Some(WriterBroken), grown';
      }
      var waits;
      waits, grown' := MakeRoom(thresh, grown);
      r := if waits then Some(WriterWaits) else None;
    }

    /** What each answer to a writer means. */
    ghost predicate Answered(thresh: nat, r: ForWriting)
      reads this
    {
      match r
      case Pointer(buffer) => inenqueue && buffer == Writer().buffer && thresh <= enqueuethresh && writerequest == 0
      case WriterBroken => !inenqueue && (readshutdown || writeshutdown) && writerequest == 0
      case WriterWaits =>
        && !inenqueue && !readshutdown && !writeshutdown
        && writerequest == thresh && queue.GetRawEnqueuePtr(thresh).None?
        && (grows ==> thresh <= queue.maxThreshold && !ReadBlocked())
    }

    /**
     * How far the queue has grown in a call that began with `q` and, where it `lacks` one, no pointer
     * to be had: not, to twice the request, or, once, for the blocked reader's request and its own.
     */
    ghost predicate WriterPhase(q: Fifo, thresh: nat, lacks: bool, grown: bool)
      reads this
    {
      if !grown then queue == q || (grows && lacks && thresh > q.maxThreshold && Doubled(q, thresh))
      else
        var first := if thresh > q.maxThreshold then Max(q.queueLength, 2 * thresh) else q.queueLength;
        && grows && lacks && ReadBlocked() && q.count + thresh > first
        && queue.maxThreshold == Max(q.maxThreshold, thresh)
        && queue.queueLength == Max(first, readrequest + thresh)
    }

    lemma WriterOutcome(q: Fifo, thresh: nat, grown: bool, r: ForWriting)
      requires Valid() && q.Valid() && queue.count == q.count
      requires WriterPhase(q, thresh, true, grown) && Answered(thresh, r)
      requires !readshutdown && !writeshutdown && q.GetRawEnqueuePtr(thresh).None?
      ensures !grows ==> r.WriterWaits?
      ensures grows && thresh <= q.maxThreshold && !(queue.count < readrequest) ==> r.WriterWaits? && queue == q
      ensures grows && thresh <= q.maxThreshold && queue.count < readrequest ==>
                r.Pointer? && queue.maxThreshold == q.maxThreshold
                && queue.queueLength == Max(q.queueLength, readrequest + thresh)
      ensures grows && thresh > q.maxThreshold ==>
                var first := Max(q.queueLength, 2 * thresh);
                && queue.maxThreshold == thresh
                && (r.Pointer? <==> queue.count + thresh <= first || queue.count < readrequest)
                && queue.queueLength == if queue.count + thresh <= first || !(queue.count < readrequest) then first
                                        else Max(first, readrequest + thresh)
    {
    }

    /** A writer has no pointer, none is to be had, and both ends are there. */
    ghost predicate LacksPointer(thresh: nat)
      reads this
    {
      !inenqueue && queue.GetRawEnqueuePtr(thresh).None? && !readshutdown && !writeshutdown
    }

    /** The loop of a call for a pointer. */
    method WriterLoop(thresh: nat, chan: nat, ghost lacks: bool) returns (r: ForWriting, ghost grown: bool)
      requires Valid() && chan < queue.Channels() && writerequest == 0 && lacks == LacksPointer(thresh)
      requires if inenqueue then thresh <= enqueuethresh else !enqueueUseOld && enqueuethresh == thresh
      modifies this`inenqueue, this`writerequest,
               this`oldqueue, this`enqueueUseOld, this`dequeueUseOld, this`queue, this`nextBuffer
      ensures Valid() && queue.count == old(queue.count) && queue.contents == old(queue.contents)
      ensures indequeue ==> Reader() == old(Reader())
      ensures if old(inenqueue) then inenqueue && Writer() == old(Writer()) else inenqueue || !enqueueUseOld
      ensures Answered(thresh, r) && WriterPhase(old(queue), thresh, lacks, grown)
      ensures old(inenqueue || queue.GetRawEnqueuePtr(thresh).Some?) ==> r.Pointer?
    {
      var answer: Option<ForWriting>, again := None, false;
      while answer.None?
        invariant Valid() && queue.count == old(queue.count) && queue.contents == old(queue.contents)
        invariant indequeue ==> Reader() == old(Reader())
        invariant if old(inenqueue) then inenqueue && Writer() == old(Writer()) else inenqueue || !enqueueUseOld
        invariant answer.None? ==> writerequest == 0 && inenqueue == old(inenqueue)
        invariant WriterPhase(old(queue), thresh, lacks, again)
        invariant answer.None? && (again || old(queue.GetRawEnqueuePtr(thresh).Some?)) ==>
                    queue.GetRawEnqueuePtr(thresh).Some?
        invariant answer.Some? ==> Answered(thresh, answer.value)
        invariant answer.Some? && old(inenqueue || queue.GetRawEnqueuePtr(thresh).Some?) ==> answer.value.Pointer?
        decreases answer.None?, thresh > queue.maxThreshold, !again
      {
        answer, again := TryToWrite(thresh, chan, again);
      }
      r, grown := answer.value, again;
    }

    /** One call for a pointer, up to the moment it returns or has to wait. */
    method GetRawEnqueuePtr(thresh: nat, chan: nat) returns (r: ForWriting)
      requires Valid() && chan < queue.Channels() && writerequest == 0
      requires if inenqueue then thresh <= enqueuethresh else !enqueueUseOld
      modifies this`enqueuethresh, this`inenqueue, this`writerequest,
               this`oldqueue, this`enqueueUseOld, this`dequeueUseOld, this`queue, this`nextBuffer
      ensures Valid() && queue.count == old(queue.count) && queue.contents == old(queue.contents)
      ensures Answered(thresh, r) && enqueuethresh == if old(inenqueue) then old(enqueuethresh) else thresh
      ensures indequeue ==> Reader() == old(Reader())
      ensures old(inenqueue) ==> Writer() == old(Writer())
      ensures old(inenqueue || queue.GetRawEnqueuePtr(thresh).Some?) ==> r.Pointer?
      ensures inenqueue || !enqueueUseOld
      ensures !grows || readshutdown || writeshutdown ==> queue == old(queue)
      ensures old(!inenqueue && queue.GetRawEnqueuePtr(thresh).None?) && (readshutdown || writeshutdown) ==>
                r.WriterBroken?
      ensures old(inenqueue || queue.GetRawEnqueuePtr(thresh).Some?) ==> queue == old(queue)
      ensures var lacks := old(!inenqueue && queue.GetRawEnqueuePtr(thresh).None?) && !readshutdown && !writeshutdown;
              && (lacks && !grows ==> r.WriterWaits?)
              && (lacks && grows && thresh <= old(queue.maxThreshold) && !old(ReadBlocked()) ==>
                    r.WriterWaits? && queue == old(queue))
              && (lacks && grows && thresh <= old(queue.maxThreshold) && old(ReadBlocked()) ==>
                    r.Pointer? && queue.maxThreshold == old(queue.maxThreshold)
                    && queue.queueLength == Max(old(queue.queueLength), readrequest + thresh))
              && (lacks && grows && thresh > old(queue.maxThreshold) ==>
                    var first := Max(old(queue.queueLength), 2 * thresh);
                    && queue.maxThreshold == thresh
                    && (r.Pointer? <==> queue.count + thresh <= first || old(ReadBlocked()))
                    && queue.queueLength == if queue.count + thresh <= first || !old(ReadBlocked()) then first
                                            else Max(first, readrequest + thresh))
    {
      ghost var lacks := LacksPointer(thresh);
      if !inenqueue {
        enqueuethresh := thresh;
      }
      ghost var grown;
      r, grown := WriterLoop(thresh, chan, lacks);
      if lacks {
        WriterOutcome(old(queue), thresh, grown, r);
      }
    }

    /** The writer has no pointer: grow and try again, or note the request and wait. */
    method MakeRoom(thresh: nat, grown: bool) returns (waits: bool, grown': bool)
      requires Valid() && !inenqueue && writerequest == 0 && !readshutdown && !writeshutdown
      requires !enqueueUseOld && !grown && queue.GetRawEnqueuePtr(thresh).None?
      modifies this`writerequest, this`oldqueue, this`enqueueUseOld, this`dequeueUseOld, this`queue, this`nextBuffer
      ensures Valid() && queue.count == old(queue.count) && queue.contents == old(queue.contents)
      ensures indequeue ==> Reader() == old(Reader())
      ensures waits ==> writerequest == thresh && queue.GetRawEnqueuePtr(thresh).None?
      ensures waits && grows ==> thresh <= queue.maxThreshold && !ReadBlocked()
      ensures !waits ==> writerequest == 0 && !enqueueUseOld && thresh <= queue.maxThreshold
      ensures !waits ==> if grown' then thresh <= queue.Freespace() else old(queue.maxThreshold) < thresh
      ensures waits <==> !grows || (thresh <= old(queue.maxThreshold) && !old(ReadBlocked()))
      ensures waits ==> queue == old(queue) && !grown'
      ensures !waits && thresh > old(queue.maxThreshold) ==> Doubled(old(queue), thresh) && !grown'
      ensures !waits && thresh <= old(queue.maxThreshold) ==> WidenedTo(old(queue), readrequest + thresh) && grown'
    {
      grown' := grown;
      if thresh > queue.maxThreshold && grows {
        UnlockedGrow(2 * thresh, thresh);
        waits := false;
      } else if !grown && ReadBlocked() && grows {
        UnlockedGrow(readrequest + thresh, thresh);
        waits, grown' := false, true;
      } else {
        writerequest := thresh;
        waits := true;
      }
    }

    /** Once the request can be met, or an end is shut down, the wait is over. */
    method WriterWakes()
      requires Valid() && !WriteBlocked()
      modifies this`writerequest
      ensures Valid() && writerequest == 0
    {
      writerequest := 0;
    }

    /** False is the exception for a queue whose writing end is shut down. */
    method Enqueue(count: nat) returns (ok: bool)
      requires Valid() && inenqueue && count <= enqueuethresh
      modifies this`enqueuethresh, this`inenqueue, this`enqueueUseOld, this`oldqueue, this`queue, this`writerCut
      ensures Valid() && ok == !writeshutdown && !inenqueue && (writerCut ==> old(writerCut) || !ok)
      ensures queue == old(queue).(count := queue.count, contents := queue.contents, space := queue.space)
      ensures queue.Channels() == old(queue.Channels())
      ensures forall c | 0 <= c < queue.Channels() ::
                queue.contents[c] == old(queue.contents[c]) + if ok then old(Writer().space[c])[..count] else []
      ensures queue.count == old(queue.count) + if ok then count else 0
      ensures indequeue ==> SameFront(Reader(), old(Reader()), dequeuethresh)
    {
      ok := !writeshutdown;
      if ok {
        CommitStored(count);
      } else {
        enqueuethresh, inenqueue, writerCut := 0, false, true;
      }
    }

    method CommitStored(count: nat)
      requires Valid() && inenqueue && count <= enqueuethresh && !writeshutdown
      modifies this`enqueuethresh, this`inenqueue, this`enqueueUseOld, this`oldqueue, this`queue
      ensures Valid() && !inenqueue
      ensures queue == old(queue).(count := old(queue.count) + count, contents := queue.contents, space := queue.space)
      ensures queue.Channels() == old(queue.Channels())
      ensures forall c | 0 <= c < queue.Channels() ::
           queue.contents[c] == old(queue.contents[c]) + old(Writer().space[c])[..count]
      ensures indequeue ==> SameFront(Reader(), old(Reader()), dequeuethresh)
    {
      enqueuethresh := 0;
      inenqueue := false;
      InternalEnqueue(count);
    }

    // ---- the reading end

    method InternalGetRawDequeuePtr(thresh: nat, chan: nat) returns (p: Option<seq<Byte>>)
      requires Valid() && chan < queue.Channels()
      requires if indequeue then thresh <= dequeuethresh else !dequeueUseOld
      ensures indequeue ==> p.Some?
      ensures !indequeue ==> p.Some? == (thresh <= queue.count && thresh <= queue.maxThreshold)
      ensures p.Some? ==> thresh <= queue.count && p.value == queue.contents[chan][..thresh]
    {
      if dequeueUseOld {
        p := oldqueue.value.GetRawDequeuePtr(thresh, chan);
        assert p.Some?;
        assert p.value == oldqueue.value.contents[chan][..dequeuethresh][..thresh];
        assert queue.contents[chan][..dequeuethresh][..thresh] == queue.contents[chan][..thresh];
      } else {
        p := queue.GetRawDequeuePtr(thresh, chan);
      }
    }

    /** Take the bytes if they are there. */
    method StartReading(thresh: nat, chan: nat) returns (p: Option<seq<Byte>>)
      requires Valid() && chan < queue.Channels() && readrequest == 0
      requires if indequeue then thresh <= dequeuethresh else !dequeueUseOld && dequeuethresh == thresh
      modifies this`indequeue
      ensures Valid() && indequeue == p.Some? && (old(indequeue) ==> p.Some?)
      ensures p.Some? ==> thresh <= queue.count && p.value == queue.contents[chan][..thresh]
      ensures p.None? ==> thresh > queue.count || thresh > queue.maxThreshold
    {
      p := InternalGetRawDequeuePtr(thresh, chan);
      if p.Some? {
        indequeue := true;
      }
    }

    /** One turn of the reader's loop: an answer, or a larger queue to try again on. */
    method TryToRead(thresh: nat, chan: nat) returns (r: Option<ForReading>)
      requires Valid() && chan < queue.Channels() && readrequest == 0
      requires if indequeue then thresh <= dequeuethresh else !dequeueUseOld && dequeuethresh == thresh
      modifies this`indequeue, this`readrequest,
               this`oldqueue, this`enqueueUseOld, this`dequeueUseOld, this`queue, this`nextBuffer
      ensures Valid() && queue.count == old(queue.count) && queue.contents == old(queue.contents)
      ensures inenqueue ==> Writer() == old(Writer())
      ensures if old(indequeue) then indequeue && Reader() == old(Reader()) else indequeue || !dequeueUseOld
      ensures old(indequeue || (thresh <= queue.count && thresh <= queue.maxThreshold)) ==> r.Some? && r.value.Data?
      ensures queue.maxThreshold >= old(queue.maxThreshold)
      ensures r.None? ==> readrequest == 0 && !indequeue && thresh <= queue.maxThreshold
      ensures r.None? ==> old(queue.maxThreshold) < thresh || (old(WriteBlocked()) && !WriteBlocked())
      ensures r.Some? ==> Told(thresh, chan, r.value)
      ensures r.Some? ==> queue == old(queue)
      ensures r.None? ==> grows && !readshutdown && !writeshutdown
      ensures r.None? ==> old(!indequeue && (thresh > queue.count || thresh > queue.maxThreshold))
      ensures r.None? && old(queue.maxThreshold) < thresh ==> Doubled(old(queue), thresh)
      ensures r.None? && thresh <= old(queue.maxThreshold) ==> WidenedTo(old(queue), writerequest + thresh)
    {
      var p := StartReading(thresh, chan);
      if p.Some? {
        return Some(Data(p.value));
      }
      if writeshutdown {
        return Some(EndOfData);
      }
      if readshutdown {
        return Some(ReaderBroken);
      }
      var waits := ReleaseWriter(thresh);
      r := if waits then Some(ReaderWaits) else None;
    }

    /** What each answer to a reader means. */
    ghost predicate Told(thresh: nat, chan: nat, r: ForReading)
      requires queue.Valid() && chan < queue.Channels()
      reads this
    {
      match r
      case Data(bytes) =>
        && indequeue && thresh <= dequeuethresh && thresh <= queue.count && readrequest == 0
        && bytes == queue.contents[chan][..thresh]
      case EndOfData =>
        !indequeue && writeshutdown && (thresh > queue.count || thresh > queue.maxThreshold) && readrequest == 0
      case ReaderBroken => !indequeue && readshutdown && !writeshutdown && readrequest == 0
      case ReaderWaits =>
        && !indequeue && !readshutdown && !writeshutdown
        && readrequest == thresh && (thresh > queue.count || thresh > queue.maxThreshold)
        && (grows ==> thresh <= queue.maxThreshold && !WriteBlocked())
    }

    /** The reader's counterpart: after any doubling, the queue has grown at most for the blocked writer's request. */
    ghost predicate ReaderPhase(q: Fifo, thresh: nat, lacks: bool)
      reads this
    {
      var first := if thresh > q.maxThreshold then Max(q.queueLength, 2 * thresh) else q.queueLength;
      || queue == q
      || (grows && lacks && thresh > q.maxThreshold && Doubled(q, thresh))
      || (&& grows && lacks && q.count < thresh && first - q.count < writerequest
          && queue.maxThreshold == Max(q.maxThreshold, thresh)
          && queue.queueLength == Max(first, writerequest + thresh))
    }

    lemma ReaderOutcome(q: Fifo, thresh: nat, chan: nat, r: ForReading)
      requires Valid() && q.Valid() && ReaderPhase(q, thresh, true) && queue.count == q.count
      requires chan < queue.Channels() && Told(thresh, chan, r)
      requires !readshutdown && !writeshutdown && (thresh > q.count || thresh > q.maxThreshold)
      ensures !grows ==> r.ReaderWaits?
      ensures grows ==>
                var first := if thresh <= q.maxThreshold then q.queueLength else Max(q.queueLength, 2 * thresh);
                && (r.Data? <==> thresh <= queue.count) && (r.ReaderWaits? <==> thresh > queue.count)
                && queue.maxThreshold == Max(q.maxThreshold, thresh)
                && queue.queueLength == if thresh > queue.count && first - queue.count < writerequest
                                        then Max(first, writerequest + thresh) else first
      ensures thresh <= q.maxThreshold && !(q.Freespace() < writerequest) ==> queue == q
    {
    }

    /** A reader has no bytes, and there are not as many as it asks for. */
    ghost predicate LacksBytes(thresh: nat)
      reads this
    {
      !indequeue && (thresh > queue.count || thresh > queue.maxThreshold)
    }

    /** The loop of a call for bytes. */
    method ReaderLoop(thresh: nat, chan: nat, ghost lacks: bool) returns (r: ForReading)
      requires Valid() && chan < queue.Channels() && readrequest == 0
      requires lacks == (LacksBytes(thresh) && !readshutdown && !writeshutdown)
      requires if indequeue then thresh <= dequeuethresh else !dequeueUseOld && dequeuethresh == thresh
      modifies this`indequeue, this`readrequest,
               this`oldqueue, this`enqueueUseOld, this`dequeueUseOld, this`queue, this`nextBuffer
      ensures Valid() && queue.count == old(queue.count) && queue.contents == old(queue.contents)
      ensures inenqueue ==> Writer() == old(Writer())
      ensures if old(indequeue) then indequeue && Reader() == old(Reader()) else indequeue || !dequeueUseOld
      ensures Told(thresh, chan, r) && ReaderPhase(old(queue), thresh, lacks)
      ensures old(!LacksBytes(thresh)) ==> r.Data?
    {
      var answer: Option<ForReading> := None;
      while answer.None?
        invariant Valid() && queue.count == old(queue.count) && queue.contents == old(queue.contents)
        invariant inenqueue ==> Writer() == old(Writer())
        invariant if old(indequeue) then indequeue && Reader() == old(Reader()) else indequeue || !dequeueUseOld
        invariant answer.None? ==> readrequest == 0 && indequeue == old(indequeue)
        invariant queue.maxThreshold >= old(queue.maxThreshold)
        invariant ReaderPhase(old(queue), thresh, lacks)
        invariant answer.Some? ==> Told(thresh, chan, answer.value)
        invariant answer.Some? && old(!LacksBytes(thresh)) ==> answer.value.Data?
        decreases answer.None?, thresh > queue.maxThreshold, WriteBlocked()
      {
        answer := TryToRead(thresh, chan);
      }
      r := answer.value;
    }

    /** One call for bytes, up to the moment it returns or has to wait. */
    method GetRawDequeuePtr(thresh: nat, chan: nat) returns (r: ForReading)
      requires Valid() && chan < queue.Channels() && readrequest == 0
      requires if indequeue then thresh <= dequeuethresh else !dequeueUseOld
      modifies this`dequeuethresh, this`indequeue, this`readrequest,
               this`oldqueue, this`enqueueUseOld, this`dequeueUseOld, this`queue, this`nextBuffer
      ensures Valid() && queue.count == old(queue.count) && queue.contents == old(queue.contents)
      ensures Told(thresh, chan, r) && dequeuethresh == if old(indequeue) then old(dequeuethresh) else thresh
      ensures inenqueue ==> Writer() == old(Writer())
      ensures old(indequeue) ==> Reader() == old(Reader())
      ensures old(indequeue || (thresh <= queue.count && thresh <= queue.maxThreshold)) ==> r.Data?
      ensures indequeue || !dequeueUseOld
      ensures !grows || readshutdown || writeshutdown ==> queue == old(queue)
      ensures old(indequeue || (thresh <= queue.count && thresh <= queue.maxThreshold)) ==> queue == old(queue)
      ensures var lacks := old(!indequeue && (thresh > queue.count || thresh > queue.maxThreshold));
              && (lacks && writeshutdown ==> r.EndOfData?)
              && (lacks && !writeshutdown && readshutdown ==> r.ReaderBroken?)
              && (lacks && !writeshutdown && !readshutdown && !grows ==> r.ReaderWaits?)
              && (lacks && !writeshutdown && !readshutdown && grows ==>
                    var first := if thresh <= old(queue.maxThreshold) then old(queue.queueLength)
                                 else Max(old(queue.queueLength), 2 * thresh);
                    && (r.Data? <==> thresh <= queue.count) && (r.ReaderWaits? <==> thresh > queue.count)
                    && queue.maxThreshold == Max(old(queue.maxThreshold), thresh)
                    && queue.queueLength == if thresh > queue.count && first - queue.count < writerequest
                                            then Max(first, writerequest + thresh) else first)
              && (lacks && thresh <= old(queue.maxThreshold) && !old(WriteBlocked()) ==> queue == old(queue))
    {
      ghost var lacks := LacksBytes(thresh) && !readshutdown && !writeshutdown;
      if !indequeue {
        dequeuethresh := thresh;
      }
      r := ReaderLoop(thresh, chan, lacks);
      if lacks {
        ReaderOutcome(old(queue), thresh, chan, r);
      }
    }

    /** The reader has no bytes: grow and try again, or note the request and wait. */
    method ReleaseWriter(thresh: nat) returns (waits: bool)
      requires Valid() && !indequeue && readrequest == 0 && !readshutdown && !writeshutdown && !dequeueUseOld
      requires thresh > queue.count || thresh > queue.maxThreshold
      modifies this`readrequest, this`oldqueue, this`enqueueUseOld, this`dequeueUseOld, this`queue, this`nextBuffer
      ensures Valid() && queue.count == old(queue.count) && queue.contents == old(queue.contents)
      ensures inenqueue ==> Writer() == old(Writer())
      ensures waits ==> readrequest == thresh && queue == old(queue)
      ensures waits && grows ==> thresh <= queue.maxThreshold && !WriteBlocked()
      ensures queue.maxThreshold >= old(queue.maxThreshold)
      ensures !waits ==> readrequest == 0 && !dequeueUseOld && thresh <= queue.maxThreshold
      ensures !waits ==> old(queue.maxThreshold) < thresh || (old(WriteBlocked()) && !WriteBlocked())
      ensures waits <==> !grows || (thresh <= old(queue.maxThreshold) && !old(WriteBlocked()))
      ensures !waits && thresh > old(queue.maxThreshold) ==> Doubled(old(queue), thresh)
      ensures !waits && thresh <= old(queue.maxThreshold) ==> WidenedTo(old(queue), writerequest + thresh)
    {
      if thresh > queue.maxThreshold && grows {
        UnlockedGrow(2 * thresh, thresh);
        waits := false;
      } else if WriteBlocked() && grows {
        UnlockedGrow(writerequest + thresh, thresh);
        waits := false;
      } else {
        readrequest := thresh;
        waits := true;
      }
    }

    method ReaderWakes()
      requires Valid() && !ReadBlocked()
      modifies this`readrequest
      ensures Valid() && readrequest == 0
    {
      readrequest := 0;
    }

    method InternalDequeue(count: nat)
      requires Linked() && count <= queue.count
      modifies this`dequeueUseOld, this`oldqueue, this`queue
      ensures Linked() && !dequeueUseOld && queue == old(queue).Dequeue(count) && Writer().space == old(Writer().space)
      ensures enqueueUseOld ==> oldqueue == old(oldqueue)
    {
      if dequeueUseOld {
        dequeueUseOld := false;
        oldqueue := None;
      }
      queue := queue.Dequeue(count);
    }

    /** False is the exception for a queue whose reading end is shut down. */
    method Dequeue(count: nat) returns (ok: bool)
      requires Valid() && indequeue && count <= dequeuethresh
      modifies this`dequeuethresh, this`indequeue, this`dequeueUseOld, this`oldqueue, this`queue, this`readerCut
      ensures Valid() && ok == !readshutdown && !indequeue && (readerCut ==> old(readerCut) || !ok)
      ensures queue == if ok then old(queue).Dequeue(count) else old(queue)
      ensures inenqueue ==> Writer().space == old(Writer().space) && Writer().buffer == old(Writer().buffer)
    {
      ok := !readshutdown;
      if ok {
        dequeuethresh, indequeue := 0, false;
        InternalDequeue(count);
      } else {
        dequeuethresh, indequeue, readerCut := 0, false, true;
      }
    }

    // ---- shutdown

    method ShutdownReader()
      requires Valid()
      modifies this`readshutdown
      ensures Valid() && readshutdown && !ReadBlocked() && !WriteBlocked()
    {
      readshutdown := true;
    }

    method ShutdownWriter()
      requires Valid()
      modifies this`writeshutdown
      ensures Valid() && writeshutdown && !ReadBlocked() && !WriteBlocked()
    {
      writeshutdown := true;
    }
  }
}

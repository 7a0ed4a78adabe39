/**
 * The remote queue as the object that sends and handles packets. Its threshold queue is a
 * sequence with a length and a threshold, the socket the log of packets written to it, and
 * locks and threads are left out: each method is one atomic step.
 */
module RemoteQueue {
  import opened Helpers
  import opened RemoteHalf
  import opened RemoteSystem
  import opened RemoteTheorems

  /** A half and everything it has written to the socket. */
  datatype Moment = Moment(h: Half, log: seq<Packet>)

  /** Action `k` was open at `a` and leads to `b`. */
  ghost predicate Performed(c: Config, a: Moment, k: Send, b: Moment) {
    CanSend(a.h, k) && b == Moment(AfterSend(c, a.h, k), a.log + Output(c, a.h, k))
  }

  /** The status-check actions `ks` lead through the moments of `hist`, one after the other. */
  ghost predicate Performs(c: Config, hist: seq<Moment>, ks: seq<Send>) {
    && |hist| == |ks| + 1
    && forall i | 0 <= i < |ks| :: PerformedAt(c, hist, ks, i)
  }

  ghost predicate PerformedAt(c: Config, hist: seq<Moment>, ks: seq<Send>, i: nat)
    requires i < |ks| && |hist| == |ks| + 1
  {
    Performed(c, hist[i], ks[i], hist[i + 1])
  }

  lemma PerformOneMore(c: Config, hist: seq<Moment>, ks: seq<Send>, k: Send, b: Moment)
    requires Performs(c, hist, ks) && Performed(c, hist[|ks|], k, b)
    ensures Performs(c, hist + [b], ks + [k])
  {
    var hist', ks' := hist + [b], ks + [k];
    forall i | 0 <= i < |ks'| ensures PerformedAt(c, hist', ks', i) {
      if i < |ks| {
        assert PerformedAt(c, hist, ks, i);
      }
    }
  }

  class RemoteQueue {
    const c: Config
    const mode: Mode
    var buf: seq<Column>
    var length: nat
    var maxThresh: nat
    var bytecount: nat
    var clock: nat
    var readclock: nat
    var writeclock: nat
    var readerlength: nat
    var writerlength: nat
    var readrequest: nat
    var writerequest: nat
    var pendingBlock: bool
    var pendingGrow: bool
    var pendingD4RTag: bool
    var tagUpdated: bool
    var sentEnd: bool
    var dead: bool
    var readshutdown: bool
    var writeshutdown: bool
    ghost var wait: Pending
    /** The actions of the current status check, and the moments before and after each. */
    ghost var trace: seq<Send>
    ghost var hist: seq<Moment>
    ghost var start: Moment
    /** Everything written to the socket so far. */
    var sent: seq<Packet>

    ghost function Abs(): Half
      reads this
    {
      Half(mode, Store(buf, length, maxThresh), bytecount, Clock(clock, readclock, writeclock),
           Shares(readerlength, writerlength), Asks(readrequest, writerequest),
           Todo(pendingBlock, pendingGrow, pendingD4RTag, tagUpdated),
           Closing(sentEnd, dead, readshutdown, writeshutdown), wait)
    }

    ghost predicate Valid()
      reads this
    {
      c.Valid() && |buf| <= length && 1 <= maxThresh
    }

    ghost function Now(): Moment
      reads this
    {
      Moment(Abs(), sent)
    }

    ghost predicate Tracked()
      reads this
    {
      Valid() && Performs(c, hist, trace) && hist[0] == start && hist[|trace|] == Now()
    }

    /** Note that `k` has just been performed. */
    ghost method Record(k: Send)
      requires Valid() && Performs(c, hist, trace) && hist[0] == start && Performed(c, hist[|trace|], k, Now())
      modifies this`trace, this`hist
      ensures Tracked()
    {
      PerformOneMore(c, hist, trace, k, Now());
      trace, hist := trace + [k], hist + [Now()];
    }

    /** Nothing has been performed yet. */
    ghost method StartTrace()
      requires Valid()
      modifies this`trace, this`hist, this`start
      ensures Tracked() && start == Now()
    {
      trace, hist, start := [], [Now()], Now();
    }

    constructor (c: Config, mode: Mode, length: nat, maxThresh: nat)
      requires c.Valid()
      ensures Valid() && this.c == c && sent == []
      ensures Abs() == Fresh(c, mode, length, maxThresh)
      ensures writerlength >= c.share(length)
           && (c.share(length) >= maxThresh ==> writerlength == c.share(length))
      ensures readerlength >= length - c.share(length)
           && (length - c.share(length) >= maxThresh ==> readerlength == length - c.share(length))
      ensures this.maxThresh == Max(maxThresh, 1)
      ensures this.length == Max(if mode.Writer? then writerlength else readerlength, this.maxThresh)
    {
      this.c, this.mode := c, mode;
      this.buf, this.maxThresh := [], Max(maxThresh, 1);
      this.length := Max(QueueLength(c, length, maxThresh, mode), Max(maxThresh, 1));
      bytecount, clock, readclock, writeclock := 0, 0, 0, 0;
      readerlength := QueueLength(c, length, maxThresh, Reader);
      writerlength := QueueLength(c, length, maxThresh, Writer);
      readrequest, writerequest := 0, 0;
      pendingBlock, pendingGrow, pendingD4RTag, tagUpdated := false, false, false, false;
      sentEnd, dead, readshutdown, writeshutdown := false, false, false, false;
      wait, sent, trace, hist := Idle, [], [], [];
      start := Moment(Fresh(c, mode, length, maxThresh), []);
    }

    // ---- sending

    method SendPacket(body: Body)
      modifies this`clock, this`sent
      ensures clock == old(clock) + 1
      ensures sent == old(sent) + [Stamped(old(Abs()), body)]
    {
      clock := clock + 1;
      if mode.Reader? {
        sent := sent + [Packet(body, clock, writeclock)];
      } else {
        sent := sent + [Packet(body, readclock, clock)];
      }
    }

    method CountToSend() returns (count: nat)
      requires mode.Writer? && bytecount < readerlength
      ensures count == EnqueueCount(c, Abs())
    {
      count := |buf|;
      var expectedfree := Max(readerlength, maxThresh) - bytecount;
      if c.maxWrite > 0 && count > c.maxWrite {
        count := c.maxWrite;
      }
      if count > maxThresh {
        count := maxThresh;
      }
      if count > expectedfree {
        count := expectedfree;
      }
    }

    method SendEnqueuePacket()
      requires Tracked() && mode.Writer? && !dead && !sentEnd && buf != [] && bytecount < readerlength
      modifies this`buf, this`bytecount, this`clock, this`sent, this`trace, this`hist
      ensures Performed(c, old(Now()), SendEnqueue, Now())
      ensures |sent| > 0 && sent[|sent| - 1].body.Enqueue? && sent[|sent| - 1].body.data + buf == old(buf)
      ensures bytecount - old(bytecount) == old(|buf|) - |buf|
      ensures bytecount <= readerlength || bytecount <= maxThresh
      ensures Tracked() && |buf| < old(|buf|)
    {
      var count := CountToSend();
      if count == 0 {
        return;
      }
      SendPacket(Enqueue(buf[..count]));
      buf := buf[count..];
      bytecount := bytecount + count;
      Record(SendEnqueue);
    }

    method SendDequeuePacket()
      requires Tracked() && mode.Reader? && !dead && !sentEnd && bytecount > |buf|
      modifies this`bytecount, this`clock, this`sent, this`trace, this`hist
      ensures Performed(c, old(Now()), SendDequeue, Now())
      ensures |sent| > 0 && sent[|sent| - 1].body == Dequeue(old(bytecount) - |buf|)
      ensures Tracked() && bytecount == |buf|
    {
      var count := bytecount - |buf|;
      SendPacket(Dequeue(count));
      bytecount := bytecount - count;
      Record(SendDequeue);
    }

    method SendGrowPacket()
      requires Tracked() && !dead && !sentEnd && pendingGrow
      modifies this`pendingGrow, this`clock, this`sent, this`trace, this`hist
      ensures Performed(c, old(Now()), SendGrow, Now())
      ensures |sent| > 0 && sent[|sent| - 1].body == Grow(readerlength + writerlength, maxThresh)
      ensures Tracked() && !pendingGrow
    {
      SendPacket(Grow(readerlength + writerlength, maxThresh));
      pendingGrow := false;
      Record(SendGrow);
    }

    /** Tell the peer about a pending block, unless traffic has met the request meanwhile. */
    method SendBlockPacket()
      requires Tracked() && !dead && !sentEnd && pendingBlock
      modifies this`pendingBlock, this`clock, this`sent, this`trace, this`hist
      ensures Performed(c, old(Now()), if old(Starved(Abs())) then SendBlock else SkipBlock, Now())
      ensures mode.Reader? ==>
                if readrequest > |buf| then |sent| > 0 && sent[|sent| - 1].body == ReadBlock(readrequest)
                else sent == old(sent)
      ensures mode.Writer? ==>
                if writerequest > length - |buf| then |sent| > 0 && sent[|sent| - 1].body == WriteBlock(writerequest)
                else sent == old(sent)
      ensures Tracked() && !pendingBlock
    {
      ghost var k := if Starved(Abs()) then SendBlock else SkipBlock;
      if mode.Writer? {
        if writerequest > length - |buf| {
          SendPacket(WriteBlock(writerequest));
        }
      } else {
        if readrequest > |buf| {
          SendPacket(ReadBlock(readrequest));
        }
      }
      pendingBlock := false;
      Record(k);
    }

    method SendD4RTagPacket()
      requires Tracked() && !dead && !sentEnd && pendingD4RTag
           && !(if mode.Writer? then writeshutdown else readshutdown)
      modifies this`pendingD4RTag, this`clock, this`sent, this`trace, this`hist
      ensures Performed(c, old(Now()), SendTag, Now())
      ensures |sent| > 0 && sent[|sent| - 1].body == D4RTag
      ensures Tracked() && !pendingD4RTag
    {
      SendPacket(D4RTag);
      pendingD4RTag := false;
      Record(SendTag);
    }

    method SendEndPacket()
      requires Tracked() && !dead && !sentEnd
      requires readshutdown || writeshutdown
      requires mode.Writer? && !readshutdown ==> buf == []
      modifies this`sentEnd, this`clock, this`sent, this`trace, this`hist
      ensures Performed(c, old(Now()), SendEnd, Now())
      ensures |sent| > 0 && sent[|sent| - 1].body == if mode.Writer? then EndOfWrite else EndOfRead
      ensures Tracked() && sentEnd
    {
      SendPacket(if mode.Writer? then EndOfWrite else EndOfRead);
      sentEnd := true;
      Record(SendEnd);
    }

    method CloseSocket()
      requires Tracked() && !dead && sentEnd && if mode.Writer? then readshutdown else writeshutdown
      modifies this`dead, this`trace, this`hist
      ensures Performed(c, old(Now()), Close, Now())
      ensures Tracked() && dead
    {
      dead := true;
      Record(Close);
    }

    /** Nothing is left for a status check to do, field by field. */
    ghost predicate Settled()
      reads this
    {
      && (dead || !(if mode.Writer? then readshutdown else writeshutdown))
      && (sentEnd || (!pendingBlock && !pendingGrow))
      && (sentEnd || if mode.Writer? then
            && (buf == [] || bytecount >= readerlength)
            && (pendingD4RTag ==> writeshutdown) && !(writeshutdown && buf == [])
          else
            bytecount <= |buf| && !readshutdown && !pendingD4RTag)
    }

    /**
     * One status check: it handles what has arrived, then performs status-check actions only,
     * each under its own guard, and leaves none of them enabled.
     */
    method InternalCheckStatus(arrived: seq<Packet>)
      requires Valid() && !dead && AcceptAll(c, Abs(), arrived)
      modifies this
      ensures Valid() && Performs(c, hist, trace) && hist[|trace|] == Now()
      ensures hist[0] == Moment(AfterReceiveAll(c, old(Abs()), arrived), old(sent))
      ensures Settled() && forall k :: !CanSend(Abs(), k)
    {
      Read(arrived);
      Act();
    }

    /** The sending part of the check. */
    method Act()
      requires Valid() && !dead
      modifies this`buf, this`bytecount, this`clock, this`pendingBlock, this`pendingGrow, this`pendingD4RTag
      modifies this`sentEnd, this`dead, this`sent, this`trace, this`hist, this`start
      ensures Valid() && Performs(c, hist, trace) && hist[0] == old(Now()) && hist[|trace|] == Now()
      ensures Settled() && forall k :: !CanSend(Abs(), k)
    {
      StartTrace();
      if pendingGrow && !sentEnd {
        SendGrowPacket();
      }
      if mode.Writer? {
        CheckWriter();
      } else {
        CheckReader();
      }
      NothingLeft();
    }

    lemma NothingLeft()
      requires Settled()
      ensures forall k :: !CanSend(Abs(), k)
    {
    }

    method CheckWriter()
      requires Tracked() && mode.Writer? && !dead && (sentEnd || !pendingGrow)
      modifies this`buf, this`bytecount, this`clock, this`pendingBlock, this`pendingD4RTag
      modifies this`sentEnd, this`dead, this`sent, this`trace, this`hist
      ensures Tracked() && Settled()
    {
      if !sentEnd {
        CheckOpenWriter();
      }
      if writeshutdown {
        if !sentEnd && buf == [] {
          SendEndPacket();
        }
      }
      CheckPeerClosed();
    }

    /** The writer's part of the check while it has not sent its End packet. */
    method CheckOpenWriter()
      requires Tracked() && mode.Writer? && !dead && !sentEnd
      modifies this`buf, this`bytecount, this`clock, this`pendingBlock, this`pendingD4RTag, this`sent, this`trace,
        this`hist
      ensures Tracked() && (buf == [] || bytecount >= readerlength)
      ensures !pendingBlock && (pendingD4RTag ==> writeshutdown)
    {
      while buf != [] && bytecount < readerlength
        invariant Tracked()
        decreases |buf|
      {
        SendEnqueuePacket();
      }
      CheckBlockAndTag();
    }

    method CheckReader()
      requires Tracked() && mode.Reader? && !dead && (sentEnd || !pendingGrow)
      modifies this`bytecount, this`clock, this`pendingBlock, this`pendingD4RTag
      modifies this`sentEnd, this`dead, this`sent, this`trace, this`hist
      ensures Tracked() && Settled()
    {
      if !sentEnd {
        CheckOpenReader();
      }
      CheckPeerClosed();
    }

    /** The reader's part of the check while it has not sent its End packet. */
    method CheckOpenReader()
      requires Tracked() && mode.Reader? && !dead && !sentEnd
      modifies this`bytecount, this`clock, this`pendingBlock, this`pendingD4RTag
      modifies this`sentEnd, this`sent, this`trace, this`hist
      ensures Tracked() && sentEnd == readshutdown
      ensures bytecount <= |buf| && !pendingBlock && (pendingD4RTag ==> readshutdown)
    {
      if bytecount > |buf| {
        SendDequeuePacket();
      }
      CheckBlockAndTag();
      if readshutdown {
        SendEndPacket();
      }
    }

    /** The pending block and tag, handled alike in both modes. */
    method CheckBlockAndTag()
      requires Tracked() && !dead && !sentEnd
      modifies this`pendingBlock, this`pendingD4RTag, this`clock, this`sent, this`trace, this`hist
      ensures Tracked() && !pendingBlock
      ensures pendingD4RTag ==> if mode.Writer? then writeshutdown else readshutdown
    {
      if pendingBlock {
        SendBlockPacket();
      }
      if pendingD4RTag {
        if !(if mode.Writer? then writeshutdown else readshutdown) {
          SendD4RTagPacket();
        }
      }
    }

    /** Answer the peer's End packet and close the socket. */
    method CheckPeerClosed()
      requires Tracked() && !dead
      modifies this`sentEnd, this`dead, this`clock, this`sent, this`trace, this`hist
      ensures Tracked()
      ensures if (if mode.Writer? then readshutdown else writeshutdown) then dead && sentEnd
              else !dead && sentEnd == old(sentEnd)
    {
      if (if mode.Writer? then readshutdown else writeshutdown) {
        if !sentEnd {
          SendEndPacket();
        }
        CloseSocket();
      }
    }

    // ---- receiving

    method UpdateClock(p: Packet)
      modifies this`clock, this`readclock, this`writeclock
      ensures Abs() == Clocked(old(Abs()), p)
      ensures readclock == p.readClock && writeclock == p.writeClock
      ensures clock > old(clock) && clock > if mode.Reader? then writeclock else readclock
    {
      writeclock := p.writeClock;
      readclock := p.readClock;
      if mode.Reader? {
        clock := Max(writeclock, clock) + 1;
      } else {
        clock := Max(readclock, clock) + 1;
      }
    }

    method LocalGrow(newLength: nat, thresh: nat)
      modifies this`length, this`maxThresh
      ensures length == Max(old(length), newLength) && maxThresh == Max(old(maxThresh), thresh)
    {
      if newLength <= length && thresh <= maxThresh {
        return;
      }
      length, maxThresh := Max(length, newLength), Max(maxThresh, thresh);
    }

    method EnqueuePacket(p: Packet)
      requires Valid() && p.body.Enqueue? && Expected(Abs(), p)
      modifies this`clock, this`readclock, this`writeclock, this`buf, this`length, this`maxThresh, this`bytecount,
        this`writerequest
      ensures Valid() && Abs() == AfterReceive(c, old(Abs()), p)
      ensures buf == old(buf) + p.body.data && bytecount == old(bytecount) + |p.body.data| && writerequest == 0
      ensures length == Max(old(length), |buf|) && maxThresh == Max(old(maxThresh), |p.body.data|)
    {
      UpdateClock(p);
      var count := |p.body.data|;
      if count > length - |buf| || count > maxThresh {
        LocalGrow(|buf| + count, count);
      }
      buf := buf + p.body.data;
      bytecount := bytecount + count;
      writerequest := 0;
    }

    method DequeuePacket(p: Packet)
      requires Valid() && p.body.Dequeue? && Acceptable(Abs(), p)
      modifies this`clock, this`readclock, this`writeclock, this`readrequest, this`bytecount
      ensures Valid() && Abs() == AfterReceive(c, old(Abs()), p)
      ensures bytecount + p.body.count == old(bytecount) && readrequest == 0
    {
      UpdateClock(p);
      readrequest := 0;
      bytecount := bytecount - p.body.count;
    }

    method ReadBlockPacket(p: Packet)
      requires Valid() && p.body.ReadBlock? && Expected(Abs(), p)
      modifies this`clock, this`readclock, this`writeclock, this`readrequest, this`pendingD4RTag
      ensures Valid() && Abs() == AfterReceive(c, old(Abs()), p)
      ensures readrequest == p.body.requested
      ensures pendingD4RTag <==> old(pendingD4RTag) || (c.useD4R && p.body.requested > |buf| + bytecount)
    {
      UpdateClock(p);
      readrequest := p.body.requested;
      if readrequest > |buf| + bytecount {
        if c.useD4R {
          pendingD4RTag := true;
        }
      }
    }

    method WriteBlockPacket(p: Packet)
      requires Valid() && p.body.WriteBlock? && Expected(Abs(), p)
      modifies this`clock, this`readclock, this`writeclock, this`writerequest, this`pendingD4RTag
      ensures Valid() && Abs() == AfterReceive(c, old(Abs()), p)
      ensures writerequest == p.body.requested
      ensures pendingD4RTag <==>
                old(pendingD4RTag) || (c.useD4R && (|buf| + p.body.requested > readerlength || |buf| > readerlength))
    {
      UpdateClock(p);
      writerequest := p.body.requested;
      if writerequest > readerlength - |buf| || |buf| > readerlength {
        if c.useD4R {
          pendingD4RTag := true;
        }
      }
    }

    method EndPacket(p: Packet)
      requires Valid() && p.IsEnd() && Expected(Abs(), p)
      modifies this`clock, this`readclock, this`writeclock, this`writeshutdown, this`readshutdown
      ensures Valid() && Abs() == AfterReceive(c, old(Abs()), p)
      ensures mode.Reader? ==> writeshutdown && readshutdown == old(readshutdown)
      ensures mode.Writer? ==> readshutdown && writeshutdown == old(writeshutdown)
    {
      UpdateClock(p);
      if mode.Reader? {
        writeshutdown := true;
      } else {
        readshutdown := true;
      }
    }

    method GrowPacket(p: Packet)
      requires Valid() && p.body.Grow?
      modifies this`clock, this`readclock, this`writeclock, this`readerlength, this`writerlength, this`length,
        this`maxThresh
      ensures Valid() && Abs() == AfterReceive(c, old(Abs()), p)
      ensures maxThresh == Max(old(maxThresh), p.body.maxThresh)
      ensures var total := p.body.queueSize;
              && writerlength >= c.share(total) && readerlength >= total - c.share(total)
              && (c.share(total) >= maxThresh ==> writerlength == c.share(total))
              && (total - c.share(total) >= maxThresh ==> readerlength == total - c.share(total))
      ensures length == Max(old(length), if mode.Writer? then writerlength else readerlength)
    {
      UpdateClock(p);
      var thresh := Max(maxThresh, p.body.maxThresh);
      readerlength := QueueLength(c, p.body.queueSize, thresh, Reader);
      writerlength := QueueLength(c, p.body.queueSize, thresh, Writer);
      LocalGrow(if mode.Writer? then writerlength else readerlength, thresh);
    }

    method D4RTagPacket(p: Packet)
      requires Valid() && p.body.D4RTag?
      modifies this`clock, this`readclock, this`writeclock, this`tagUpdated
      ensures Valid() && Abs() == AfterReceive(c, old(Abs()), p)
      ensures tagUpdated
    {
      UpdateClock(p);
      tagUpdated := true;
    }

    /** One packet to its handler. */
    method Dispatch(p: Packet)
      requires Valid() && Acceptable(Abs(), p)
      modifies this`clock, this`readclock, this`writeclock, this`buf, this`length, this`maxThresh, this`bytecount,
               this`readrequest, this`writerequest, this`pendingD4RTag, this`tagUpdated,
               this`readshutdown, this`writeshutdown, this`readerlength, this`writerlength
      ensures Valid() && Abs() == AfterReceive(c, old(Abs()), p)
    {
      match p.body
      case Enqueue(_) => EnqueuePacket(p);
      case Dequeue(_) => DequeuePacket(p);
      case ReadBlock(_) => ReadBlockPacket(p);
      case WriteBlock(_) => WriteBlockPacket(p);
      case EndOfWrite => EndPacket(p);
      case EndOfRead => EndPacket(p);
      case Grow(_, _) => GrowPacket(p);
      case D4RTag => D4RTagPacket(p);
    }

    /** The reading loop: everything that has arrived, in order. */
    method Read(arrived: seq<Packet>)
      requires Valid() && AcceptAll(c, Abs(), arrived)
      modifies this`clock, this`readclock, this`writeclock, this`buf, this`length, this`maxThresh, this`bytecount,
               this`readrequest, this`writerequest, this`pendingD4RTag, this`tagUpdated,
               this`readshutdown, this`writeshutdown, this`readerlength, this`writerlength
      ensures Valid() && Abs() == AfterReceiveAll(c, old(Abs()), arrived)
    {
      var i := 0;
      ghost var all := AfterReceiveAll(c, Abs(), arrived);
      while i < |arrived|
        invariant i <= |arrived| && Valid() && AcceptAll(c, Abs(), arrived[i..])
        invariant AfterReceiveAll(c, Abs(), arrived[i..]) == all
      {
        assert arrived[i..][0] == arrived[i] && arrived[i..][1..] == arrived[i + 1..];
        Dispatch(arrived[i]);
        i := i + 1;
      }
      assert arrived[i..] == [];
    }

    // ---- the application's side

    method UnlockedGrow(queueLen: nat, thresh: nat)
      requires Valid() && (!pendingGrow || dead)
      modifies this`readerlength, this`writerlength, this`length, this`maxThresh, this`pendingGrow
      ensures Valid()
      ensures if CanCall(old(Abs()), Resize(queueLen, thresh))
              then Abs() == AfterCall(c, old(Abs()), Resize(queueLen, thresh))
              else Abs() == old(Abs())
      ensures old(queueLen > readerlength + writerlength || thresh > maxThresh) ==>
                && writerlength >= c.share(queueLen) && readerlength >= queueLen - c.share(queueLen)
                && (c.share(queueLen) >= maxThresh ==> writerlength == c.share(queueLen))
                && (queueLen - c.share(queueLen) >= maxThresh ==> readerlength == queueLen - c.share(queueLen))
                && length == Max(old(length), if mode.Writer? then writerlength else readerlength)
                && maxThresh == Max(old(maxThresh), thresh) && pendingGrow
    {
      if queueLen > readerlength + writerlength || thresh > maxThresh {
        ResizedLengths(c, Abs(), queueLen, thresh);
        ResizeTo(queueLen, thresh);
      }
    }

    static lemma ResizedLengths(c: Config, h: Half, queueLen: nat, thresh: nat)
      requires c.Valid() && CanCall(h, Resize(queueLen, thresh))
      ensures var t := AfterCall(c, h, Resize(queueLen, thresh));
              && t.shares.writer >= c.share(queueLen) && t.shares.reader >= queueLen - c.share(queueLen)
              && (c.share(queueLen) >= t.q.maxThresh ==> t.shares.writer == c.share(queueLen))
              && (queueLen - c.share(queueLen) >= t.q.maxThresh ==> t.shares.reader == queueLen - c.share(queueLen))
              && t.q.length == Max(h.q.length, if h.mode.Writer? then t.shares.writer else t.shares.reader)
              && t.q.maxThresh == Max(h.q.maxThresh, thresh) && t.todo.grow
    {
    }

    method ResizeTo(queueLen: nat, thresh: nat)
      requires Valid() && CanCall(Abs(), Resize(queueLen, thresh))
      modifies this`readerlength, this`writerlength, this`length, this`maxThresh, this`pendingGrow
      ensures Valid() && Abs() == AfterCall(c, old(Abs()), Resize(queueLen, thresh))
    {
      var maxthresh := Max(maxThresh, thresh);
      readerlength := QueueLength(c, queueLen, maxthresh, Reader);
      writerlength := QueueLength(c, queueLen, maxthresh, Writer);
      LocalGrow(if mode.Writer? then writerlength else readerlength, maxthresh);
      pendingGrow := true;
    }

    /** Ask the peer for data or space and remember the clock to wait for. */
    method BeginWait(request: nat) returns (saveclock: nat)
      requires Valid() && wait.Idle?
      modifies this`readrequest, this`writerequest, this`pendingBlock, this`tagUpdated, this`wait
      ensures Valid() && Abs() == AfterCall(c, old(Abs()), RemoteHalf.BeginWait(request))
      ensures saveclock == old(clock) + 1 && pendingBlock && !tagUpdated
      ensures (mode.Reader? ==> readrequest == request) && (mode.Writer? ==> writerequest == request)
    {
      if mode.Reader? {
        readrequest := request;
      } else {
        writerequest := request;
      }
      pendingBlock := true;
      tagUpdated := false;
      saveclock := clock + 1;
      wait := Waiting(saveclock);
    }
  }

  // ---- status checks are steps of the system

  function SendsAt(side: Mode, ks: seq<Send>): seq<Step> {
    seq(|ks|, i requires 0 <= i < |ks| => SendAt(side, ks[i]))
  }

  /** The system with one side replaced by a moment of it. */
  function With(s: Sys, side: Mode, m: Moment): Sys {
    if side.Writer? then s.(w := m.h, wLog := m.log) else s.(r := m.h, rLog := m.log)
  }

  /** What a half performs is a run of the two-sided system. */
  lemma {:induction false} ActionsAreRun(s: Sys, side: Mode, ks: seq<Send>, hist: seq<Moment>)
    requires s.c.Valid() && Performs(s.c, hist, ks) && s == With(s, side, hist[0])
    ensures Run(s, SendsAt(side, ks), With(s, side, hist[|ks|]))
    decreases |ks|
  {
    if ks != [] {
      assert PerformedAt(s.c, hist, ks, 0);
      var s1 := Apply(s, SendAt(side, ks[0]));
      assert s1 == With(s, side, hist[1]);
      forall i | 0 <= i < |ks[1..]| ensures PerformedAt(s.c, hist[1..], ks[1..], i) {
        assert PerformedAt(s.c, hist, ks, i + 1);
      }
      ActionsAreRun(s1, side, ks[1..], hist[1..]);
      assert SendsAt(side, ks)[1..] == SendsAt(side, ks[1..]);
    }
  }

  predicate InOrder(s: Sys) {
    s.wRead <= |s.rLog| && s.rRead <= |s.wLog|
  }

  /** How many packets are on their way to one side. */
  function InFlight(s: Sys, side: Mode): nat {
    if side.Writer? then if s.wRead <= |s.rLog| then |s.rLog| - s.wRead else 0
    else if s.rRead <= |s.wLog| then |s.wLog| - s.rRead else 0
  }

  /** The first `n` of them. */
  function Arrived(s: Sys, side: Mode, n: nat): seq<Packet>
    requires InOrder(s) && n <= InFlight(s, side)
  {
    if side.Writer? then s.rLog[s.wRead..s.wRead + n] else s.wLog[s.rRead..s.rRead + n]
  }

  function ReceivesAt(side: Mode, n: nat): seq<Step> {
    seq(n, _ => ReceiveAt(side))
  }

  /** The system once one side has taken `n` packets off the wire. */
  function Received(s: Sys, side: Mode, n: nat): Sys
    requires s.c.Valid() && InOrder(s) && n <= InFlight(s, side) && AcceptAll(s.c, HalfAt(s, side), Arrived(s, side, n))
  {
    var h := AfterReceiveAll(s.c, HalfAt(s, side), Arrived(s, side, n));
    if side.Writer? then s.(w := h, wRead := s.wRead + n) else s.(r := h, rRead := s.rRead + n)
  }

  lemma StaysAlive(c: Config, h: Half, p: Packet)
    requires c.Valid() && Acceptable(h, p)
    ensures AfterReceive(c, h, p).end.dead == h.end.dead
  {
  }

  lemma SliceStep<T>(log: seq<T>, at: nat, n: nat)
    requires n > 0 && at + n <= |log|
    ensures log[at..at + n][0] == log[at] && log[at..at + n][1..] == log[at + 1..at + 1 + (n - 1)]
  {
  }

  lemma AcceptOneMore(c: Config, h: Half, ps: seq<Packet>)
    requires c.Valid() && ps != [] && Acceptable(h, ps[0]) && AcceptAll(c, AfterReceive(c, h, ps[0]), ps[1..])
    ensures AcceptAll(c, h, ps)
    ensures AfterReceiveAll(c, h, ps) == AfterReceiveAll(c, AfterReceive(c, h, ps[0]), ps[1..])
  {
  }

  lemma WriterReadsOne(s: Sys)
    requires Reachable(s) && s.c.Valid() && !s.w.end.dead && s.wRead < |s.rLog|
    ensures Acceptable(s.w, s.rLog[s.wRead]) && !AfterReceive(s.c, s.w, s.rLog[s.wRead]).end.dead
    ensures Reachable(s.(w := AfterReceive(s.c, s.w, s.rLog[s.wRead]), wRead := s.wRead + 1))
  {
    NoAssertionFails(s, ReceiveAt(Writer));
    StaysAlive(s.c, s.w, s.rLog[s.wRead]);
    StillReachable(s, ReceiveAt(Writer));
  }

  lemma {:induction false} WriterRunOn(s: Sys, n: nat, ps: seq<Packet>)
    requires n > 0 && |ps| == n && s.c.Valid() && !s.w.end.dead && s.wRead < |s.rLog| && ps[0] == s.rLog[s.wRead]
    requires Acceptable(s.w, ps[0]) && AcceptAll(s.c, AfterReceive(s.c, s.w, ps[0]), ps[1..])
    requires var h := AfterReceive(s.c, s.w, ps[0]);
             Run(s.(w := h, wRead := s.wRead + 1), ReceivesAt(Writer, n - 1),
                 s.(w := AfterReceiveAll(s.c, h, ps[1..]), wRead := s.wRead + n))
    ensures AcceptAll(s.c, s.w, ps)
    ensures Run(s, ReceivesAt(Writer, n), s.(w := AfterReceiveAll(s.c, s.w, ps), wRead := s.wRead + n))
  {
    AcceptOneMore(s.c, s.w, ps);
    assert ReceivesAt(Writer, n)[1..] == ReceivesAt(Writer, n - 1);
  }

  /** Whatever has arrived at the writer can be handled, and handling it is a run of the system. */
  lemma {:induction false} WriterReads(s: Sys, n: nat)
    requires Reachable(s) && s.c.Valid() && !s.w.end.dead && s.wRead + n <= |s.rLog|
    ensures AcceptAll(s.c, s.w, s.rLog[s.wRead..s.wRead + n])
    ensures Run(s, ReceivesAt(Writer, n),
                s.(w := AfterReceiveAll(s.c, s.w, s.rLog[s.wRead..s.wRead + n]), wRead := s.wRead + n))
    decreases n
  {
    var ps := s.rLog[s.wRead..s.wRead + n];
    if n == 0 {
      assert ps == [] && s == s.(w := s.w, wRead := s.wRead + n);
    } else {
      WriterReadsOne(s);
      var h := AfterReceive(s.c, s.w, s.rLog[s.wRead]);
      var s1 := s.(w := h, wRead := s.wRead + 1);
      WriterReads(s1, n - 1);
      SliceStep(s.rLog, s.wRead, n);
      WriterRunOn(s, n, ps);
    }
  }

  lemma ReaderReadsOne(s: Sys)
    requires Reachable(s) && s.c.Valid() && !s.r.end.dead && s.rRead < |s.wLog|
    ensures Acceptable(s.r, s.wLog[s.rRead]) && !AfterReceive(s.c, s.r, s.wLog[s.rRead]).end.dead
    ensures Reachable(s.(r := AfterReceive(s.c, s.r, s.wLog[s.rRead]), rRead := s.rRead + 1))
  {
    NoAssertionFails(s, ReceiveAt(Reader));
    StaysAlive(s.c, s.r, s.wLog[s.rRead]);
    StillReachable(s, ReceiveAt(Reader));
  }

  lemma {:induction false} ReaderRunOn(s: Sys, n: nat, ps: seq<Packet>)
    requires n > 0 && |ps| == n && s.c.Valid() && !s.r.end.dead && s.rRead < |s.wLog| && ps[0] == s.wLog[s.rRead]
    requires Acceptable(s.r, ps[0]) && AcceptAll(s.c, AfterReceive(s.c, s.r, ps[0]), ps[1..])
    requires var h := AfterReceive(s.c, s.r, ps[0]);
             Run(s.(r := h, rRead := s.rRead + 1), ReceivesAt(Reader, n - 1),
                 s.(r := AfterReceiveAll(s.c, h, ps[1..]), rRead := s.rRead + n))
    ensures AcceptAll(s.c, s.r, ps)
    ensures Run(s, ReceivesAt(Reader, n), s.(r := AfterReceiveAll(s.c, s.r, ps), rRead := s.rRead + n))
  {
    AcceptOneMore(s.c, s.r, ps);
    assert ReceivesAt(Reader, n)[1..] == ReceivesAt(Reader, n - 1);
  }

  /** Whatever has arrived at the reader can be handled, and handling it is a run of the system. */
  lemma {:induction false} ReaderReads(s: Sys, n: nat)
    requires Reachable(s) && s.c.Valid() && !s.r.end.dead && s.rRead + n <= |s.wLog|
    ensures AcceptAll(s.c, s.r, s.wLog[s.rRead..s.rRead + n])
    ensures Run(s, ReceivesAt(Reader, n),
                s.(r := AfterReceiveAll(s.c, s.r, s.wLog[s.rRead..s.rRead + n]), rRead := s.rRead + n))
    decreases n
  {
    var ps := s.wLog[s.rRead..s.rRead + n];
    if n == 0 {
      assert ps == [] && s == s.(r := s.r, rRead := s.rRead + n);
    } else {
      ReaderReadsOne(s);
      var h := AfterReceive(s.c, s.r, s.wLog[s.rRead]);
      var s1 := s.(r := h, rRead := s.rRead + 1);
      ReaderReads(s1, n - 1);
      SliceStep(s.wLog, s.rRead, n);
      ReaderRunOn(s, n, ps);
    }
  }

  lemma ReachableConfig(s: Sys)
    requires Reachable(s)
    ensures s.c.Valid() && InOrder(s)
  {
    ReachableInv(s);
  }

  lemma ArrivedAtWriter(s: Sys, n: nat)
    requires Reachable(s) && s.c.Valid() && InOrder(s) && !s.w.end.dead && n <= InFlight(s, Writer)
    ensures AcceptAll(s.c, s.w, Arrived(s, Writer, n))
    ensures Run(s, ReceivesAt(Writer, n), Received(s, Writer, n))
  {
    WriterReads(s, n);
  }

  lemma ArrivedAtReader(s: Sys, n: nat)
    requires Reachable(s) && s.c.Valid() && InOrder(s) && !s.r.end.dead && n <= InFlight(s, Reader)
    ensures AcceptAll(s.c, s.r, Arrived(s, Reader, n))
    ensures Run(s, ReceivesAt(Reader, n), Received(s, Reader, n))
  {
    ReaderReads(s, n);
  }

  lemma ArrivedIsHandled(s: Sys, side: Mode, n: nat)
    requires Reachable(s) && s.c.Valid() && InOrder(s) && !HalfAt(s, side).end.dead && n <= InFlight(s, side)
    ensures AcceptAll(s.c, HalfAt(s, side), Arrived(s, side, n))
    ensures Run(s, ReceivesAt(side, n), Received(s, side, n))
  {
    match side
    case Writer => ArrivedAtWriter(s, n);
    case Reader => ArrivedAtReader(s, n);
  }

  /**
   * A status check of either half, in any reachable state and with anything that has arrived,
   * meets the check's demands and is a run of the two-sided system.
   */
  lemma StatusCheckIsRun(s: Sys, side: Mode, n: nat, ks: seq<Send>, hist: seq<Moment>)
    requires Reachable(s) && !HalfAt(s, side).end.dead && n <= InFlight(s, side)
    ensures s.c.Valid() && InOrder(s) && AcceptAll(s.c, HalfAt(s, side), Arrived(s, side, n))
    ensures var s1 := Received(s, side, n);
            Performs(s.c, hist, ks) && hist[0] == Moment(HalfAt(s1, side), LogAt(s, side)) ==>
              Run(s, ReceivesAt(side, n) + SendsAt(side, ks), With(s1, side, hist[|ks|]))
  {
    ReachableConfig(s);
    ArrivedIsHandled(s, side, n);
    var s1 := Received(s, side, n);
    if Performs(s.c, hist, ks) && hist[0] == Moment(HalfAt(s1, side), LogAt(s, side)) {
      ActionsAreRun(s1, side, ks, hist);
      RunsOn(s, ReceivesAt(side, n), s1, SendsAt(side, ks), With(s1, side, hist[|ks|]));
    }
  }
}

/** The circular queue: a ring per channel, made contiguous by a spill region past its end. */
module CircularQueue {
  import opened Helpers
  import opened RingRows

  class CircularQueue {
    var queueLength: nat // one more than the capacity
    var maxThreshold: nat
    const numChannels: nat
    var chanStride: nat
    var head: nat
    var tail: nat
    var buffer: seq<seq<Byte>> // chanStride bytes for each channel
    // Bytes handed out for reading on each channel since the last Dequeue.
    ghost var lent: seq<nat>

    ghost predicate Shape()
      reads this
    {
      && head < queueLength && tail < queueLength && chanStride == queueLength + maxThreshold
      && |buffer| == numChannels && (forall c | 0 <= c < numChannels :: |buffer[c]| == chanStride)
      && |lent| == numChannels
      && forall c | 0 <= c < numChannels :: lent[c] <= maxThreshold && lent[c] <= Used(queueLength, head, tail)
    }

    /** Windows handed out for reading keep showing what is queued. */
    ghost predicate Valid()
      reads this
    {
      Shape() && forall c | 0 <= c < numChannels :: Shows(buffer[c], queueLength, tail, lent[c])
    }

    /** What is queued on a channel, oldest first. */
    ghost function Contents(c: nat): (s: seq<Byte>)
      requires Shape() && c < numChannels
      reads this
    {
      Ring(buffer[c], queueLength, tail, Used(queueLength, head, tail))
    }

    ghost function AllContents(): (s: seq<seq<Byte>>)
      requires Shape()
      reads this
      ensures |s| == numChannels && forall c | 0 <= c < numChannels :: s[c] == Contents(c)
    {
      seq(numChannels, c requires 0 <= c < numChannels && Shape() reads this => Contents(c))
    }

    /** The `n` bytes at the writing end of a channel. */
    ghost function WriteWindow(c: nat, n: nat): (s: seq<Byte>)
      requires Shape() && c < numChannels && head + n <= chanStride
      reads this
    {
      Window(buffer[c], head, n)
    }

    constructor (size: nat, maxThresh: nat, numChans: nat)
      ensures Valid() && Count() == 0 && numChannels == numChans && maxThreshold == maxThresh
      ensures QueueLength() == if size < maxThresh then maxThresh else size
      ensures head == 0 && forall c | 0 <= c < numChannels :: lent[c] == 0
    {
      numChannels := numChans;
      maxThreshold := maxThresh;
      head, tail := 0, 0;
      lent := seq(numChans, _ => 0);
      queueLength := size + 1;
      chanStride := size + 1 + maxThresh;
      buffer := seq(numChans, _ => seq(size + 1 + maxThresh, _ => 0));
      if size < maxThresh {
        queueLength := maxThresh + 1;
        chanStride := 2 * maxThresh + 1;
        buffer := seq(numChans, _ => seq(2 * maxThresh + 1, _ => 0));
      }
    }

    function QueueLength(): int
      reads this
    {
      queueLength - 1
    }

    function Freespace(): (n: nat)
      requires head < queueLength && tail < queueLength
      reads this
      ensures n == Free(queueLength, head, tail)
    {
      if head >= tail then queueLength - (head - tail) - 1 else tail - head - 1
    }

    function Count(): (n: nat)
      requires head < queueLength && tail < queueLength
      reads this
      ensures n == Used(queueLength, head, tail)
    {
      if head >= tail then head - tail else head + (queueLength - tail)
    }

    // ---- writing

    /**
     * A pointer is to the head, where the next commit takes its bytes: cells that lie in the
     * channel's row and that nothing queued or lent is in.
     */
    method GetRawEnqueuePtr(thresh: nat, chan: nat) returns (at: Option<nat>)
      requires Valid() && chan < numChannels
      ensures at.Some? <==> thresh <= Freespace() && thresh <= maxThreshold
      ensures at.Some? ==> at.value == head
      ensures at.Some? ==> at.value + thresh <= |buffer[chan]| && at.value + thresh <= 2 * queueLength
      ensures at.Some? ==> buffer[chan][at.value..at.value + thresh] == WriteWindow(chan, thresh)
      ensures at.Some? ==> Apart(queueLength, at.value, thresh, tail, Count(), lent[chan])
      ensures at.Some? ==> !(at.value + thresh > queueLength && tail + lent[chan] > queueLength)
    {
      if thresh <= Freespace() {
        WindowsApart(queueLength, head, tail, thresh, lent[chan]);
      }
      if Freespace() >= thresh && maxThreshold >= thresh {
        return Some(head);
      } else {
        return None;
      }
    }

    /** A caller's store through the pointer it was given: invisible until committed. */
    method Write(chan: nat, off: nat, bytes: seq<Byte>)
      requires Valid() && chan < numChannels && off + |bytes| <= Freespace() && off + |bytes| <= maxThreshold
      modifies this`buffer
      ensures Valid() && forall c | 0 <= c < numChannels :: Contents(c) == old(Contents(c))
      ensures forall c | 0 <= c < numChannels ::
                WriteWindow(c, maxThreshold) ==
                if c == chan then Overlay(old(WriteWindow(c, maxThreshold)), off, bytes)
                else old(WriteWindow(c, maxThreshold))
      ensures buffer == old(buffer)[chan := Overlay(old(buffer[chan]), head + off, bytes)]
      ensures buffer[chan][head + off..head + off + |bytes|] == bytes
    {
      WriteRow(buffer[chan], queueLength, maxThreshold, head, tail, off, bytes, lent[chan]);
      buffer := buffer[chan := Overlay(buffer[chan], head + off, bytes)];
    }

    method Enqueue(count: nat)
      requires Valid() && count <= Freespace() && head + count <= chanStride
      modifies this`head, this`buffer
      ensures Valid() && Freespace() == old(Freespace()) - count && lent == old(lent)
      ensures head == Wrap(old(head) + count, queueLength)
      ensures forall c | 0 <= c < numChannels :: Contents(c) == old(Contents(c)) + old(WriteWindow(c, count))
    {
      var newHead := head + count;
      if newHead >= queueLength {
        newHead := newHead - queueLength;
        CopyDown(newHead);
      }
      UsedAndFree(queueLength, head, tail);
      forall c | 0 <= c < numChannels
        ensures Ring(buffer[c], queueLength, tail, Used(queueLength, head, tail) + count)
             == old(Contents(c)) + old(WriteWindow(c, count))
        ensures |buffer[c]| == chanStride && Shows(buffer[c], queueLength, tail, lent[c])
      {
        CommitRow(old(buffer[c]), buffer[c], queueLength, head, tail, count, lent[c]);
      }
      head := newHead;
    }

    /** On every channel, copy the start of the spill region to the start of the ring. */
    method CopyDown(n: nat)
      requires n <= queueLength && |buffer| == numChannels
      requires forall c | 0 <= c < numChannels :: queueLength + n <= |buffer[c]|
      modifies this`buffer
      ensures |buffer| == numChannels && forall c | 0 <= c < numChannels ::
           buffer[c] == Unspill(old(buffer[c]), queueLength, n)
    {
      var chan := 0;
      while chan < numChannels
        invariant 0 <= chan <= numChannels && |buffer| == numChannels
        invariant forall c | 0 <= c < chan :: buffer[c] == Unspill(old(buffer[c]), queueLength, n)
        invariant forall c | chan <= c < numChannels :: buffer[c] == old(buffer[c])
      {
        buffer := buffer[chan := Unspill(buffer[chan], queueLength, n)];
        chan := chan + 1;
      }
    }

    /** Put one chunk of every row in its channel's window. */
    method Fill(data: seq<seq<Byte>>, at: nat, n: nat)
      requires Valid() && |data| <= numChannels && n <= Freespace() && n <= maxThreshold
      requires forall c | 0 <= c < |data| :: at + n <= |data[c]|
      modifies this`buffer
      ensures Valid() && forall c | 0 <= c < numChannels :: Contents(c) == old(Contents(c))
      ensures forall c | 0 <= c < |data| :: WriteWindow(c, n) == data[c][at..at + n]
    {
      var chan := 0;
      while chan < |data|
        invariant 0 <= chan <= |data| && Valid()
        invariant forall c | 0 <= c < numChannels :: Contents(c) == old(Contents(c))
        invariant forall c | 0 <= c < chan :: WriteWindow(c, n) == data[c][at..at + n]
      {
        var dest := GetRawEnqueuePtr(n, chan);
        assert dest.Some?;
        Write(chan, 0, data[chan][at..at + n]);
        chan := chan + 1;
      }
    }

    /** One turn of the copying loop: the same piece of every row, then commit. */
    method PutChunk(data: seq<seq<Byte>>, at: nat, n: nat)
      requires Valid() && |data| <= numChannels && n <= Freespace() && n <= maxThreshold
      requires forall c | 0 <= c < |data| :: at + n <= |data[c]|
      modifies this`head, this`buffer
      ensures Valid() && Freespace() == old(Freespace()) - n && head == Wrap(old(head) + n, queueLength)
      ensures forall c | 0 <= c < |data| :: Contents(c) == old(Contents(c)) + data[c][at..at + n]
      ensures forall c | 0 <= c < numChannels :: old(Contents(c)) <= Contents(c)
    {
      Fill(data, at, n);
      Enqueue(n);
    }

    /** Append `count` bytes of each given row to its channel, in chunks; all or nothing. */
    method RawEnqueue(data: seq<seq<Byte>>, count: nat) returns (ok: bool)
      requires Valid() && 1 <= |data| <= numChannels && forall c | 0 <= c < |data| :: count <= |data[c]|
      requires maxThreshold > 0 || count == 0 || Freespace() < count
      modifies this`head, this`buffer
      ensures Valid() && ok == (old(Freespace()) >= count) && Freespace() == old(Freespace()) - if ok then count else 0
      ensures forall c | 0 <= c < |data| :: Contents(c) == old(Contents(c)) + if ok then data[c][..count] else []
      ensures forall c | 0 <= c < numChannels :: old(Contents(c)) <= Contents(c)
      ensures if ok then head == Wrap(old(head) + count, queueLength) else buffer == old(buffer) && head == old(head)
    {
      if Freespace() < count {
        return false;
      }
      var numcopied := 0;
      while numcopied < count
        invariant 0 <= numcopied <= count && Valid() && Freespace() == old(Freespace()) - numcopied
        invariant head == Wrap(old(head) + numcopied, queueLength)
        invariant forall c | 0 <= c < |data| :: Contents(c) == old(Contents(c)) + data[c][..numcopied]
        invariant forall c | 0 <= c < numChannels :: old(Contents(c)) <= Contents(c)
      {
        var numtocopy := count - numcopied;
        if numtocopy > maxThreshold {
          numtocopy := maxThreshold;
        }
        PutChunk(data, numcopied, numtocopy);
        forall c | 0 <= c < |data|
          ensures Contents(c) == old(Contents(c)) + data[c][..numcopied + numtocopy]
        {
          Append(old(Contents(c)), data[c], numcopied, numtocopy);
        }
        numcopied := numcopied + numtocopy;
      }
      return true;
    }

    // ---- reading

    /** Make the first `thresh` bytes of a channel contiguous. */
    method Lend(thresh: nat, chan: nat)
      requires Valid() && chan < numChannels && thresh <= Count() && thresh <= maxThreshold
      modifies this`buffer, this`lent
      ensures Valid() && forall c | 0 <= c < numChannels :: Contents(c) == old(Contents(c))
      ensures buffer[chan][tail..tail + thresh] == Contents(chan)[..thresh]
      ensures lent == old(lent)[chan := Max(old(lent[chan]), thresh)]
      ensures forall c, n: nat | 0 <= c < numChannels && n <= Freespace() && head + n <= chanStride ::
                WriteWindow(c, n) == old(WriteWindow(c, n))
    {
      ghost var row := buffer[chan];
      if tail + thresh > queueLength {
        buffer := buffer[chan := Spill(buffer[chan], queueLength, tail + thresh - queueLength)];
      }
      SpillRow(row, buffer[chan], queueLength, maxThreshold, head, tail, thresh, lent[chan]);
      SpillKeepsWindow(row, buffer[chan], queueLength, head, tail, thresh);
      lent := lent[chan := Max(lent[chan], thresh)];
    }

    /** A pointer is to the first bytes queued, in one piece. What stands in an open write window stays. */
    method GetRawDequeuePtr(thresh: nat, chan: nat) returns (at: Option<nat>)
      requires Valid() && chan < numChannels
      modifies this`buffer, this`lent
      ensures Valid() && forall c | 0 <= c < numChannels :: Contents(c) == old(Contents(c))
      ensures at.Some? <==> thresh <= Count() && thresh <= maxThreshold
      ensures at.Some? ==> at.value == tail && tail + thresh <= |buffer[chan]|
      ensures at.Some? ==> buffer[chan][at.value..at.value + thresh] == Contents(chan)[..thresh]
      ensures lent == if at.Some? then old(lent)[chan := Max(old(lent[chan]), thresh)] else old(lent)
      ensures forall c, n: nat | 0 <= c < numChannels && n <= Freespace() && head + n <= chanStride ::
                WriteWindow(c, n) == old(WriteWindow(c, n))
    {
      if Count() >= thresh && maxThreshold >= thresh {
        Lend(thresh, chan);
        return Some(tail);
      } else {
        return None;
      }
    }

    method Dequeue(count: nat)
      requires Valid() && count <= Count()
      modifies this`tail, this`lent
      ensures Valid() && Count() == old(Count()) - count
      ensures forall c | 0 <= c < numChannels :: Contents(c) == old(Contents(c))[count..]
      ensures forall c | 0 <= c < numChannels :: lent[c] == 0
    {
      var newTail := tail + count;
      if newTail >= queueLength {
        newTail := newTail - queueLength;
      }
      forall c | 0 <= c < numChannels
        ensures Ring(buffer[c], queueLength, newTail, Used(queueLength, head, newTail)) == old(Contents(c))[count..]
      {
        DequeueDrops(buffer[c], queueLength, head, tail, count);
      }
      tail := newTail;
      lent := seq(numChannels, _ => 0);
    }

    /** One turn of the copying loop: the same piece of every channel, then release. */
    method TakeChunk(rows: nat, n: nat) returns (piece: seq<seq<Byte>>)
      requires Valid() && rows <= numChannels && n <= Count() && n <= maxThreshold
      modifies this`tail, this`buffer, this`lent
      ensures Valid() && Count() == old(Count()) - n && |piece| == rows
      ensures forall c | 0 <= c < rows :: piece[c] == old(Contents(c))[..n]
      ensures forall c | 0 <= c < numChannels :: Contents(c) == old(Contents(c))[n..]
      ensures forall c | 0 <= c < numChannels :: lent[c] == 0
      ensures forall c, n: nat | 0 <= c < numChannels && n <= old(Freespace()) && head + n <= chanStride ::
                WriteWindow(c, n) == old(WriteWindow(c, n))
    {
      piece := [];
      while |piece| < rows
        invariant |piece| <= rows && Valid() && tail == old(tail)
        invariant forall c | 0 <= c < numChannels :: Contents(c) == old(Contents(c))
        invariant forall c | 0 <= c < |piece| :: piece[c] == old(Contents(c))[..n]
        invariant forall c, n: nat | 0 <= c < numChannels && n <= old(Freespace()) && head + n <= chanStride ::
                  WriteWindow(c, n) == old(WriteWindow(c, n))
      {
        var chan := |piece|;
        var src := GetRawDequeuePtr(n, chan);
        assert src.Some?;
        piece := piece + [buffer[chan][src.value..src.value + n]];
      }
      Dequeue(n);
    }

    /** The windows open for writing, `w` bytes wide, show `open`. */
    ghost predicate Stands(w: nat, open: seq<seq<Byte>>)
      requires Shape()
      reads this
    {
      && w <= Freespace() && head + w <= chanStride && |open| == numChannels
      && forall c | 0 <= c < numChannels :: WriteWindow(c, w) == open[c]
    }

    /** One turn of the copying loop: `n` more bytes of what was queued at the start. */
    method TakeMore(data: seq<seq<Byte>>, done: nat, n: nat, ghost was: seq<seq<Byte>>, ghost w: nat,
        ghost open: seq<seq<Byte>>)
      returns (more: seq<seq<Byte>>)
      requires Valid() && |data| <= numChannels && n <= Count() && n <= maxThreshold && Stands(w, open)
      requires |was| == numChannels
      requires forall c | 0 <= c < numChannels :: done + n <= |was[c]| && Contents(c) == was[c][done..]
      requires forall c | 0 <= c < |data| :: data[c] == was[c][..done]
      modifies this`tail, this`buffer, this`lent
      ensures Valid() && Count() == old(Count()) - n && Stands(w, open) && |more| == |data|
      ensures forall c | 0 <= c < |data| :: more[c] == was[c][..done + n]
      ensures forall c | 0 <= c < numChannels :: Contents(c) == was[c][done + n..]
    {
      var piece := TakeChunk(|data|, n);
      more := Joined(data, piece);
      forall c | 0 <= c < numChannels
        ensures Contents(c) == was[c][done + n..] && (c < |data| ==> more[c] == was[c][..done + n])
      {
        Split(was[c], done, n);
      }
    }

    /** The copying loop. */
    method TakeAll(count: nat, rows: nat, ghost was: seq<seq<Byte>>, ghost w: nat, ghost open: seq<seq<Byte>>)
      returns (data: seq<seq<Byte>>)
      requires Valid() && rows <= numChannels && count <= Count() && (maxThreshold > 0 || count == 0) && Stands(w, open)
      requires |was| == numChannels && forall c | 0 <= c < numChannels :: count <= |was[c]| && Contents(c) == was[c]
      modifies this`tail, this`buffer, this`lent
      ensures Valid() && |data| == rows && Count() == old(Count()) - count && Stands(w, open)
      ensures forall c | 0 <= c < rows :: data[c] == was[c][..count]
      ensures forall c | 0 <= c < numChannels :: Contents(c) == was[c][count..]
    {
      data := seq(rows, _ => []);
      var numcopied := 0;
      while numcopied < count
        invariant 0 <= numcopied <= count && Valid() && Count() == old(Count()) - numcopied && |data| == rows
             && Stands(w, open)
        invariant forall c | 0 <= c < rows :: data[c] == was[c][..numcopied]
        invariant forall c | 0 <= c < numChannels :: Contents(c) == was[c][numcopied..]
      {
        var numtocopy := count - numcopied;
        if numtocopy > maxThreshold {
          numtocopy := maxThreshold;
        }
        data := TakeMore(data, numcopied, numtocopy, was, w, open);
        numcopied := numcopied + numtocopy;
      }
    }

    /** Move `count` bytes of the first `rows` channels to the caller, in chunks; all or nothing. */
    method RawDequeue(count: nat, rows: nat) returns (ok: bool, data: seq<seq<Byte>>)
      requires Valid() && 1 <= rows <= numChannels
      requires maxThreshold > 0 || count == 0 || Count() < count
      modifies this`tail, this`buffer, this`lent
      ensures Valid() && ok == (old(Count()) >= count) && |data| == rows
           && Count() == old(Count()) - if ok then count else 0
      ensures forall c | 0 <= c < rows :: data[c] == if ok then old(Contents(c))[..count] else []
      ensures forall c | 0 <= c < numChannels ::
           Contents(c) == if ok then old(Contents(c))[count..] else old(Contents(c))
      ensures !ok ==> lent == old(lent)
      ensures forall c, n: nat | 0 <= c < numChannels && n <= old(Freespace()) && head + n <= chanStride ::
                WriteWindow(c, n) == old(WriteWindow(c, n))
    {
      if Count() < count {
        data := seq(rows, _ => []);
        return false, data;
      }
      ghost var w, was := Min(Freespace(), chanStride - head), AllContents();
      ghost var open := Windows(buffer, head, w);
      data := TakeAll(count, rows, was, w, open);
      NarrowWindows(old(buffer), buffer, head, w);
      return true, data;
    }

    // ---- growing

    /** Every channel's contents survive; the size follows `Grown`, which may ignore the request. */
    method Grow(queueLen: nat, maxThresh: nat)
      requires Valid() && numChannels >= 1 && (maxThreshold > 0 || Count() == 0)
      modifies this
      ensures Valid() && Grown(old(queueLength), old(maxThreshold), queueLen, maxThresh) == (queueLength, maxThreshold)
      ensures maxThreshold == Max(old(maxThreshold), maxThresh)
      ensures QueueLength() == if queueLen > old(queueLength) then queueLen
                               else if maxThresh > old(maxThreshold) then old(queueLength) else old(QueueLength())
      ensures Count() == old(Count()) && (queueLength != old(queueLength) ==> head == Count())
      ensures queueLength == old(queueLength) ==>
                head == old(head) && tail == old(tail) && buffer == old(buffer) && lent == old(lent)
                  && chanStride == old(chanStride)
      ensures forall c | 0 <= c < numChannels :: Contents(c) == old(Contents(c))
    {
      if queueLen <= queueLength && maxThresh <= maxThreshold {
        return;
      }
      var newLen := if queueLen < queueLength then queueLength else queueLen;
      var newThresh := if maxThresh < maxThreshold then maxThreshold else maxThresh;
      var oldcount := Count();
      var ok, copied := RawDequeue(oldcount, numChannels);
      assert ok;
      forall c | 0 <= c < numChannels
        ensures copied[c] == old(Contents(c))
      {
        assert old(Contents(c))[..oldcount] == old(Contents(c));
      }
      Adopt(copied, oldcount, newLen, newThresh);
    }

    /** Lay the copied rows out from the start of a new, larger buffer. */
    method Adopt(copied: seq<seq<Byte>>, count: nat, newLen: nat, newThresh: nat)
      requires |copied| == numChannels && count <= newLen && forall c | 0 <= c < numChannels :: |copied[c]| == count
      modifies this
      ensures Valid() && queueLength == newLen + 1 && maxThreshold == newThresh && Count() == head == count
      ensures forall c | 0 <= c < numChannels :: Contents(c) == copied[c]
    {
      chanStride := newLen + 1 + newThresh;
      var pad: seq<Byte> := seq(chanStride - count, _ => 0);
      tail := 0;
      queueLength := newLen + 1;
      maxThreshold := newThresh;
      head := count;
      buffer := seq(numChannels, c requires 0 <= c < numChannels => copied[c] + pad);
      lent := seq(numChannels, _ => 0);
      forall c | 0 <= c < numChannels
        ensures |buffer[c]| == chanStride && Shows(buffer[c], queueLength, 0, 0)
        ensures Ring(buffer[c], queueLength, 0, count) == copied[c]
      {
        FreshRow(copied[c], pad, queueLength);
      }
    }

    method Clear()
      requires Valid()
      modifies this`head, this`tail, this`lent
      ensures Valid() && Count() == 0 && head == 0 && forall c | 0 <= c < numChannels :: lent[c] == 0
    {
      head, tail := 0, 0;
      lent := seq(numChannels, _ => 0);
    }
  }

  /** A row laid out afresh from the start of the ring. */
  lemma FreshRow(copied: seq<Byte>, pad: seq<Byte>, ql: nat)
    requires |copied| < ql <= |copied| + |pad|
    ensures Ring(copied + pad, ql, 0, |copied|) == copied && Shows(copied + pad, ql, 0, 0)
  {
  }

  /** Each row with a piece appended. */
  function Joined(rows: seq<seq<Byte>>, piece: seq<seq<Byte>>): (r: seq<seq<Byte>>)
    requires |rows| == |piece|
    ensures |r| == |rows| && forall c | 0 <= c < |rows| :: r[c] == rows[c] + piece[c]
  {
    seq(|rows|, c requires 0 <= c < |rows| => rows[c] + piece[c])
  }

  function Windows(rows: seq<seq<Byte>>, at: nat, n: nat): (r: seq<seq<Byte>>)
    requires forall c | 0 <= c < |rows| :: at + n <= |rows[c]|
    ensures |r| == |rows| && forall c | 0 <= c < |rows| :: r[c] == Window(rows[c], at, n)
  {
    seq(|rows|, c requires 0 <= c < |rows| => Window(rows[c], at, n))
  }

  /** Windows that agree agree on every shorter piece. */
  lemma NarrowWindows(rows: seq<seq<Byte>>, rows': seq<seq<Byte>>, at: nat, w: nat)
    requires |rows| == |rows'| && forall c | 0 <= c < |rows| :: at + w <= |rows[c]| && at + w <= |rows'[c]|
    requires forall c | 0 <= c < |rows| :: Window(rows[c], at, w) == Window(rows'[c], at, w)
    ensures forall c, n: nat | 0 <= c < |rows| && n <= w :: Window(rows[c], at, n) == Window(rows'[c], at, n)
  {
    forall c, n: nat | 0 <= c < |rows| && n <= w
      ensures Window(rows[c], at, n) == Window(rows'[c], at, n)
    {
      assert Window(rows[c], at, n) == Window(rows[c], at, w)[..n];
      assert Window(rows'[c], at, n) == Window(rows'[c], at, w)[..n];
    }
  }

  lemma Split(was: seq<Byte>, done: nat, n: nat)
    requires done + n <= |was|
    ensures was[..done] + was[done..][..n] == was[..done + n] && was[done..][n..] == was[done + n..]
  {
  }

  lemma Append(was: seq<Byte>, row: seq<Byte>, done: nat, n: nat)
    requires done + n <= |row|
    ensures was + row[..done] + row[done..done + n] == was + row[..done + n]
  {
    assert row[..done] + row[done..done + n] == row[..done + n];
  }
}

/** The encoder that queues outgoing packets in a circular queue of one channel. */
module PacketEncoder {
  import opened Helpers
  import opened RingRows
  import opened CircularQueue
  import opened Segments

  /** The writing loop is stuck: no room, and the growth it asks for is the one that is ignored. */
  predicate Stuck(capacity: nat, maxThresh: nat, count: nat, len: nat) {
    count + len == capacity + 1 && len <= maxThresh
  }

  /** One growth makes room for the segment, exactly when the request is not the ignored one. */
  lemma GrowMakesRoom(capacity: nat, maxThresh: nat, count: nat, len: nat)
    requires count <= capacity && capacity - count < len
    ensures var (ql, mt) := Grown(capacity + 1, maxThresh, count + len, len);
            (ql - 1 - count >= len) <==> !Stuck(capacity, maxThresh, count, len)
    ensures Stuck(capacity, maxThresh, count, len) ==>
              Grown(capacity + 1, maxThresh, count + len, len) == (capacity + 1, maxThresh)
  {
  }

  /** Ring size and threshold after one segment. */
  function After(ql: nat, maxThresh: nat, count: nat, len: nat): (nat, nat) {
    if ql - 1 - count >= len then (ql, maxThresh) else Grown(ql, maxThresh, count + len, len)
  }

  /** Every segment in turn finds room or can make it. */
  predicate Unstuck(ql: nat, maxThresh: nat, count: nat, iov: seq<seq<Byte>>)
    requires ql > 0
    decreases |iov|
  {
    iov == [] ||
    var len := |iov[0]|;
    var (ql1, mt1) := After(ql, maxThresh, count, len);
    !Stuck(ql - 1, maxThresh, count, len) && Unstuck(ql1, mt1, count + len, iov[1..])
  }

  /** Ring size and threshold after all segments. */
  function AfterAll(ql: nat, maxThresh: nat, count: nat, iov: seq<seq<Byte>>): (nat, nat)
    decreases |iov|
  {
    if iov == [] then (ql, maxThresh)
    else
      var (ql1, mt1) := After(ql, maxThresh, count, |iov[0]|);
      AfterAll(ql1, mt1, count + |iov[0]|, iov[1..])
  }

  /** The segments before number `n` go in, and there the loop is stuck. */
  predicate StuckAt(ql: nat, maxThresh: nat, count: nat, iov: seq<seq<Byte>>, n: nat)
    requires ql > 0 && n < |iov|
  {
    var (ql1, mt1) := AfterAll(ql, maxThresh, count, iov[..n]);
    Unstuck(ql, maxThresh, count, iov[..n]) && ql1 > 0 && Stuck(ql1 - 1, mt1, count + |Flatten(iov[..n])|, |iov[n]|)
  }

  /** The writing ends unless some segment, after those before it have gone in, meets the ignored growth. */
  lemma {:induction false} UnstuckOrStuckAt(ql: nat, maxThresh: nat, count: nat, iov: seq<seq<Byte>>)
    requires ql > 0
    ensures !Unstuck(ql, maxThresh, count, iov) <==> exists n: nat :: n < |iov| && StuckAt(ql, maxThresh, count, iov, n)
    decreases |iov|
  {
    if iov != [] {
      if Stuck(ql - 1, maxThresh, count, |iov[0]|) {
        assert iov[..0] == [];
        assert StuckAt(ql, maxThresh, count, iov, 0);
      } else {
        var (ql1, mt1) := After(ql, maxThresh, count, |iov[0]|);
        var count1, rest := count + |iov[0]|, iov[1..];
        UnstuckOrStuckAt(ql1, mt1, count1, rest);
        if n: nat :| n < |rest| && StuckAt(ql1, mt1, count1, rest, n) {
          StuckLater(ql, maxThresh, count, iov, n);
        }
        if n: nat :| n < |iov| && StuckAt(ql, maxThresh, count, iov, n) {
          NotStuckFirst(ql, maxThresh, count, iov, n);
          StuckLater(ql, maxThresh, count, iov, n - 1);
        }
      }
    }
  }

  lemma StuckLater(ql: nat, maxThresh: nat, count: nat, iov: seq<seq<Byte>>, n: nat)
    requires ql > 0 && n + 1 < |iov| && !Stuck(ql - 1, maxThresh, count, |iov[0]|)
    ensures var (ql1, mt1) := After(ql, maxThresh, count, |iov[0]|);
            StuckAt(ql, maxThresh, count, iov, n + 1) <==> StuckAt(ql1, mt1, count + |iov[0]|, iov[1..], n)
  {
    assert iov[..n + 1][0] == iov[0] && iov[..n + 1][1..] == iov[1..][..n];
  }

  lemma NotStuckFirst(ql: nat, maxThresh: nat, count: nat, iov: seq<seq<Byte>>, n: nat)
    requires ql > 0 && n < |iov| && StuckAt(ql, maxThresh, count, iov, n) && !Stuck(ql - 1, maxThresh, count, |iov[0]|)
    ensures n > 0
  {
    assert iov[..0] == [];
  }

  /** A fresh encoder, 4092 bytes long, gets stuck on two segments that together are one byte too many. */
  lemma StuckExample(iov: seq<seq<Byte>>)
    requires |iov| >= 2 && |iov[0]| == 4029 && |iov[1]| == 64
    ensures !Unstuck(4093, 4092, 0, iov)
  {
    assert !Unstuck(4093, 4092, 4029, iov[1..]);
  }

  class BufferedPacketEncoder {
    const cbuff: CircularQueue

    ghost predicate Valid()
      reads this, cbuff
    {
      cbuff.Valid() && cbuff.numChannels == 1 && cbuff.maxThreshold > 0
    }

    ghost function Pending(): seq<Byte>
      requires Valid()
      reads this, cbuff
    {
      cbuff.Contents(0)
    }

    constructor ()
      ensures Valid() && fresh(cbuff) && Pending() == []
      ensures cbuff.queueLength == 4093 && cbuff.maxThreshold == 4092 && cbuff.Count() == 0
    {
      cbuff := new CircularQueue(4092, 4092, 1);
    }

    method BytesReady() returns (r: bool)
      requires Valid()
      ensures r == (Pending() != [])
    {
      r := cbuff.Count() > 0;
    }

    /** The first bytes queued, in one piece; an amount of zero asks for as many as possible. */
    method GetEncodedBytes(ask: nat) returns (amount: nat, bytes: seq<Byte>)
      requires Valid()
      modifies cbuff
      ensures Valid() && Pending() == old(Pending())
      ensures amount <= |Pending()| && bytes == Pending()[..amount]
      ensures ask > 0 ==> amount == if |Pending()| < ask then |Pending()| else ask
      ensures ask == 0 ==> amount == Min(|Pending()|, old(cbuff.maxThreshold)) && (Pending() != [] ==> amount > 0)
    {
      amount := ask;
      if amount == 0 {
        amount := cbuff.maxThreshold;
      }
      if cbuff.Count() < amount {
        amount := cbuff.Count();
      }
      AllowWindow(amount);
      var at := cbuff.GetRawDequeuePtr(amount, 0);
      assert at.Some?;
      bytes := cbuff.buffer[0][at.value..at.value + amount];
    }

    /** Grow only the threshold, if the window asked for is larger. */
    method AllowWindow(amount: nat)
      requires Valid()
      modifies cbuff
      ensures Valid() && Pending() == old(Pending()) && cbuff.maxThreshold >= amount
      ensures cbuff.Count() == old(cbuff.Count())
    {
      if cbuff.maxThreshold < amount {
        cbuff.Grow(0, amount);
        assert |cbuff.Contents(0)| == cbuff.Count();
      }
    }

    method ReleaseEncodedBytes(amount: nat)
      requires Valid() && amount <= |Pending()|
      modifies cbuff
      ensures Valid() && Pending() == old(Pending())[amount..]
    {
      cbuff.Dequeue(amount);
    }

    /** Nothing at all has changed in the buffer. */
    twostate predicate AsBefore()
      reads this, cbuff
    {
      && cbuff.queueLength == old(cbuff.queueLength) && cbuff.maxThreshold == old(cbuff.maxThreshold)
      && cbuff.head == old(cbuff.head) && cbuff.tail == old(cbuff.tail) && cbuff.buffer == old(cbuff.buffer)
      && cbuff.chanStride == old(cbuff.chanStride) && cbuff.lent == old(cbuff.lent)
    }

    method MakeRoom(len: nat)
      requires Valid() && cbuff.Freespace() < len
      modifies cbuff
      ensures Valid() && Pending() == old(Pending()) && cbuff.Count() == old(cbuff.Count())
      ensures (cbuff.queueLength, cbuff.maxThreshold)
           == After(old(cbuff.queueLength), old(cbuff.maxThreshold), old(cbuff.Count()), len)
      ensures if old(Stuck(cbuff.queueLength - 1, cbuff.maxThreshold, cbuff.Count(), len)) then AsBefore()
              else cbuff.Freespace() >= len
    {
      UsedAndFree(cbuff.queueLength, cbuff.head, cbuff.tail);
      GrowMakesRoom(cbuff.queueLength - 1, cbuff.maxThreshold, cbuff.Count(), len);
      cbuff.Grow(cbuff.Count() + len, len);
      UsedAndFree(cbuff.queueLength, cbuff.head, cbuff.tail);
    }

    /** One turn of the writing loop: grow, then try again. At a stuck state it changes nothing. */
    method Turn(segment: seq<Byte>) returns (ok: bool)
      requires Valid() && cbuff.Freespace() < |segment|
      modifies cbuff
      ensures Valid() && ok == !old(Stuck(cbuff.queueLength - 1, cbuff.maxThreshold, cbuff.Count(), |segment|))
      ensures !ok ==> AsBefore() && Pending() == old(Pending())
      ensures ok ==> Pending() == old(Pending()) + segment && cbuff.Count() == old(cbuff.Count()) + |segment|
      ensures (cbuff.queueLength, cbuff.maxThreshold)
           == After(old(cbuff.queueLength), old(cbuff.maxThreshold), old(cbuff.Count()), |segment|)
    {
      MakeRoom(|segment|);
      var rows := [segment];
      UsedAndFree(cbuff.queueLength, cbuff.head, cbuff.tail);
      ok := cbuff.RawEnqueue(rows, |segment|);
      UsedAndFree(cbuff.queueLength, cbuff.head, cbuff.tail);
      assert segment[..|segment|] == segment;
    }

    /** Queue one segment, growing when there is no room. */
    method WriteSegment(segment: seq<Byte>)
      requires Valid() && !Stuck(cbuff.queueLength - 1, cbuff.maxThreshold, cbuff.Count(), |segment|)
      modifies cbuff
      ensures Valid() && Pending() == old(Pending()) + segment && cbuff.Count() == old(cbuff.Count()) + |segment|
      ensures (cbuff.queueLength, cbuff.maxThreshold)
           == After(old(cbuff.queueLength), old(cbuff.maxThreshold), old(cbuff.Count()), |segment|)
    {
      UsedAndFree(cbuff.queueLength, cbuff.head, cbuff.tail);
      ghost var ql, mt, count := cbuff.queueLength, cbuff.maxThreshold, cbuff.Count();
      var rows := [segment];
      var ok := cbuff.RawEnqueue(rows, |segment|);
      assert segment[..|segment|] == segment;
      while !ok
        invariant Valid()
        invariant Pending() == old(Pending()) + if ok then segment else []
        invariant cbuff.Count() == count + if ok then |segment| else 0
        invariant !ok ==> cbuff.Freespace() < |segment|
        invariant (cbuff.queueLength, cbuff.maxThreshold) == if ok then After(ql, mt, count, |segment|) else (ql, mt)
        decreases !ok
      {
        ok := Turn(segment);
      }
    }

    /** Queue all segments: what is pending grows by exactly their concatenation. */
    method WriteBytes(iov: seq<seq<Byte>>)
      requires Valid() && Unstuck(cbuff.queueLength, cbuff.maxThreshold, cbuff.Count(), iov)
      modifies cbuff
      ensures Valid() && Pending() == old(Pending()) + Flatten(iov)
           && cbuff.Count() == old(cbuff.Count()) + |Flatten(iov)|
      ensures (cbuff.queueLength, cbuff.maxThreshold)
           == AfterAll(old(cbuff.queueLength), old(cbuff.maxThreshold), old(cbuff.Count()), iov)
    {
      ghost var all := AfterAll(cbuff.queueLength, cbuff.maxThreshold, cbuff.Count(), iov);
      var i := 0;
      while i < |iov|
        invariant i <= |iov| && Valid() && Pending() == old(Pending()) + Flatten(iov[..i])
        invariant cbuff.Count() == old(cbuff.Count()) + |Flatten(iov[..i])|
        invariant AfterAll(cbuff.queueLength, cbuff.maxThreshold, cbuff.Count(), iov[i..]) == all
        invariant Unstuck(cbuff.queueLength, cbuff.maxThreshold, cbuff.Count(), iov[i..])
      {
        assert iov[i..][0] == iov[i] && iov[i..][1..] == iov[i + 1..];
        ghost var was := Pending();
        WriteSegment(iov[i]);
        FlattenSnoc(iov, i);
        assert old(Pending()) + Flatten(iov[..i]) + iov[i] == old(Pending()) + (Flatten(iov[..i]) + iov[i]);
        i := i + 1;
      }
      assert iov[..i] == iov;
    }
  }
}

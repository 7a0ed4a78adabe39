/**
 * The bounded queue under a threshold queue, by its documented contract, and how it is copied
 * to a larger buffer. A queue is a value; `buffer` names the memory its pointers point into,
 * so a handle duplicated with the same buffer is the same queue.
 */
module ThresholdQueue {
  import opened Helpers
  import opened RingRows

  /** `space` is what stands at the writing end: what a writer stores through its pointer. */
  datatype Fifo = Fifo(
    buffer: nat, queueLength: nat, maxThreshold: nat, count: nat, contents: seq<seq<Byte>>, space: seq<seq<Byte>>)
  {
    ghost predicate Valid() {
      && 1 <= maxThreshold <= queueLength && count <= queueLength && |space| == |contents|
      && (forall c | 0 <= c < |contents| :: |contents[c]| == count)
      && (forall c | 0 <= c < |space| :: |space[c]| == maxThreshold)
    }

    function Channels(): nat {
      |contents|
    }

    function Freespace(): int {
      queueLength - count
    }

    /** A pointer for writing, by the name of its buffer. */
    function GetRawEnqueuePtr(thresh: nat): Option<nat> {
      if thresh > Freespace() || thresh > maxThreshold then None else Some(buffer)
    }

    /** A pointer for reading, by the bytes it shows. */
    function GetRawDequeuePtr(thresh: nat, chan: nat): Option<seq<Byte>>
      requires Valid() && chan < Channels()
    {
      if thresh > count || thresh > maxThreshold then None else Some(contents[chan][..thresh])
    }

    function Dequeue(n: nat): (q: Fifo)
      requires Valid() && n <= count
      ensures q.Valid()
    {
      this.(count := count - n,
            contents := seq(|contents|, c requires 0 <= c < |contents| && n <= |contents[c]| => contents[c][n..]))
    }

    /** A store through a pointer. */
    function Put(chan: nat, off: nat, bytes: seq<Byte>): (q: Fifo)
      requires Valid() && chan < Channels() && off + |bytes| <= maxThreshold
      ensures q.Valid()
    {
      this.(space := space[chan := Overlay(space[chan], off, bytes)])
    }
  }

  /** Commit what stands at the writing end; what stands there afterwards is left open. */
  method Commit(q: Fifo, n: nat) returns (r: Fifo)
    requires q.Valid() && n <= q.Freespace() && n <= q.maxThreshold
    ensures r.Valid() && r == q.(count := q.count + n, contents := r.contents, space := r.space)
         && r.Channels() == q.Channels()
    ensures forall c | 0 <= c < q.Channels() :: r.contents[c] == q.contents[c] + q.space[c][..n]
  {
    var k := |q.contents|;
    r := q.(count := q.count + n,
            space := seq(k, c requires 0 <= c < k && n <= |q.space[c]| => q.space[c][n..] + q.space[c][..n]),
            contents := seq(k, c requires 0 <= c < k && n <= |q.space[c]| => q.contents[c] + q.space[c][..n]));
  }

  /** A new, empty buffer. */
  method AllocateBuf(buffer: nat, queueLen: nat, maxThresh: nat, channels: nat) returns (q: Fifo)
    ensures q.Valid() && q.Channels() == channels && q.count == 0 && q.buffer == buffer
    ensures q.maxThreshold == Max(maxThresh, 1) && q.queueLength == Max(queueLen, q.maxThreshold)
  {
    var mt := Max(maxThresh, 1);
    q := Fifo(buffer, Max(queueLen, mt), mt, 0, seq(channels, _ => []), seq(channels, _ => seq(mt, _ => 0)));
  }

  /** The inner part of the copying loop: `n` bytes of every channel. */
  method CopyChunk(src: Fifo, dst: Fifo, n: nat) returns (src': Fifo, dst': Fifo)
    requires src.Valid() && dst.Valid() && src.Channels() == dst.Channels()
    requires n <= src.count && n <= src.maxThreshold && n <= dst.Freespace() && n <= dst.maxThreshold
    ensures dst'.Valid() && dst' == dst.(count := dst.count + n, contents := dst'.contents, space := dst'.space)
    ensures src' == src.Dequeue(n) && dst'.Channels() == dst.Channels()
    ensures forall c | 0 <= c < dst.Channels() :: dst'.contents[c] == dst.contents[c] + src.contents[c][..n]
  {
    dst' := dst;
    var chan := 0;
    while chan < dst.Channels()
      invariant 0 <= chan <= dst.Channels() && dst'.Valid() && dst' == dst.(space := dst'.space)
      invariant forall c | 0 <= c < chan :: dst'.space[c][..n] == src.contents[c][..n]
    {
      var from := src.GetRawDequeuePtr(n, chan);
      assert from.Some? && dst'.GetRawEnqueuePtr(n).Some?;
      dst' := dst'.Put(chan, 0, from.value);
      chan := chan + 1;
    }
    dst' := Commit(dst', n);
    src' := src.Dequeue(n);
  }

  /** The copying loop: all of one queue, in chunks, onto the end of another. */
  method CopyAll(src: Fifo, dst: Fifo) returns (r: Fifo)
    requires src.Valid() && dst.Valid() && src.Channels() == dst.Channels()
    requires src.count <= dst.Freespace() && src.maxThreshold <= dst.maxThreshold
    ensures r.Valid() && r == dst.(count := dst.count + src.count, contents := r.contents, space := r.space)
    ensures r.Channels() == dst.Channels()
    ensures forall c | 0 <= c < dst.Channels() :: r.contents[c] == dst.contents[c] + src.contents[c]
  {
    var left := src;
    r := dst;
    while left.count != 0
      invariant left.Valid() && left.count <= src.count && left == src.(count := left.count, contents := left.contents)
      invariant r.Valid() && r
           == dst.(count := dst.count + src.count - left.count, contents := r.contents, space := r.space)
      invariant left.Channels() == dst.Channels() == r.Channels()
      invariant forall c | 0 <= c < dst.Channels() ::
           r.contents[c] + left.contents[c] == dst.contents[c] + src.contents[c]
      decreases left.count
    {
      var n := if left.count > left.maxThreshold then left.maxThreshold else left.count;
      var rest, more := CopyChunk(left, r, n);
      forall c | 0 <= c < dst.Channels()
        ensures more.contents[c] + rest.contents[c] == r.contents[c] + left.contents[c]
      {
        assert left.contents[c] == left.contents[c][..n] + left.contents[c][n..];
      }
      left, r := rest, more;
    }
    forall c | 0 <= c < dst.Channels()
      ensures r.contents[c] == dst.contents[c] + src.contents[c]
    {
      assert r.contents[c] + left.contents[c] == r.contents[c];
    }
  }

  /** The same bytes in a larger buffer; a request already met changes nothing. */
  method Grow(q: Fifo, queueLen: nat, maxThresh: nat, buffer: nat) returns (r: Fifo)
    requires q.Valid()
    ensures r.Valid() && r.contents == q.contents && r.count == q.count
    ensures if queueLen <= q.queueLength && maxThresh <= q.maxThreshold then r == q
            else r.buffer == buffer && r.maxThreshold == Max(maxThresh, q.maxThreshold)
                 && r.queueLength == Max(Max(queueLen, q.queueLength), r.maxThreshold)
  {
    if queueLen <= q.queueLength && maxThresh <= q.maxThreshold {
      return q;
    }
    r := AllocateBuf(buffer, Max(queueLen, q.queueLength), Max(maxThresh, q.maxThreshold), q.Channels());
    assert forall c | 0 <= c < q.Channels() :: r.contents[c] == [];
    r := CopyAll(q, r);
    forall c | 0 <= c < q.Channels()
      ensures r.contents[c] == q.contents[c]
    {
      assert [] + q.contents[c] == q.contents[c];
    }
    assert r.contents == q.contents;
  }
}

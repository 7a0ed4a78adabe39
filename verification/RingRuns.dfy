/** Every interleaving of calls on a circular queue, against a plain sequence for each channel. */
module RingRuns {
  import opened CircularQueue
  import opened Helpers
  import opened KnownBytes
  import opened RingRows

  /**
   * What the calls mean: one sequence a channel, the windows open for writing, and how much is
   * lent. Where the writing end stands says only how wide a commit may be.
   */
  datatype Plain = Plain(
    size: nat, threshold: nat, head: nat, count: nat, queued: seq<Cells>, open: seq<Cells>, lent: seq<nat>)
  {
    ghost predicate Valid() {
      && count <= size && head <= size && |queued| == |open| == |lent| >= 1
      && (forall c | 0 <= c < |queued| :: |queued[c]| == count)
      && (forall c | 0 <= c < |open| :: |open[c]| <= size - count && |open[c]| <= threshold)
      && (forall c | 0 <= c < |lent| :: lent[c] <= count)
    }

    function Channels(): nat {
      |queued|
    }

    function Room(): nat {
      if count <= size then size - count else 0
    }

    function Opened(n: nat, chan: nat): (r: Plain)
      requires Valid() && chan < |open| && n <= Room() && n <= threshold
      ensures r.Valid()
    {
      this.(open := open[chan := Widen(open[chan], n)])
    }

    function Stored(chan: nat, off: nat, bytes: seq<Byte>): (r: Plain)
      requires Valid() && chan < |open| && off + |bytes| <= |open[chan]|
      ensures r.Valid()
    {
      this.(open := open[chan := Overlay(open[chan], off, Known(bytes))])
    }

    /** Each channel's sequence is longer by its added cells; no window is open any more. */
    function Appended(added: seq<Cells>, n: nat): (r: Plain)
      requires Valid() && |added| == |queued| && n <= Room() && forall c | 0 <= c < |added| :: |added[c]| == n
      ensures r.Valid()
    {
      this.(count := count + n, head := Wrap(head + n, size + 1), queued :=
        seq(|queued|, c requires 0 <= c < |queued| => queued[c] + added[c]),
            open := seq(|queued|, _ => []))
    }

    /** The first `n` cells of every channel are gone, and nothing is lent. */
    function Dropped(n: nat): (r: Plain)
      requires Valid() && n <= count
      ensures r.Valid()
    {
      this.(count := count - n, lent := seq(|queued|, _ => 0),
            queued := seq(|queued|, c requires 0 <= c < |queued| && n <= |queued[c]| => queued[c][n..]))
    }

    function Lending(n: nat, chan: nat): (r: Plain)
      requires Valid() && chan < |lent| && n <= count
      ensures r.Valid()
    {
      this.(lent := lent[chan := Max(lent[chan], n)])
    }

    function Enlarged(len: nat, thresh: nat): (r: Plain)
      requires Valid()
      ensures r.Valid()
    {
      var (size', thresh') := Grown(size + 1, threshold, len, thresh);
      if (size', thresh') == (size + 1, threshold) then this
      else this.(size := size' - 1, head := count, threshold := thresh', open := seq(|open|, _ => []), lent :=
        seq(|lent|, _ => 0))
    }
  }

  datatype Op =
    | GetWrite(n: nat, chan: nat)
    | Store(chan: nat, off: nat, bytes: seq<Byte>)
    | Commit(n: nat)
    | PutRows(rows: seq<seq<Byte>>, n: nat)
    | GetRead(n: nat, chan: nat)
    | Look(n: nat, chan: nat)
    | Release(n: nat)
    | TakeRows(n: nat, width: nat)
    | Enlarge(len: nat, thresh: nat)
    | Empty

  datatype Reply = Done | Refused | Bytes(rows: seq<seq<Byte>>)

  /** What the calls demand: a store stays in its window, a commit in the row, and the asserted counts. */
  ghost predicate Allowed(p: Plain, op: Op)
    requires p.Valid()
  {
    match op
    case GetWrite(n, chan) => chan < p.Channels()
    case Store(chan, off, bytes) => chan < |p.open| && off + |bytes| <= |p.open[chan]|
    case Commit(n) => n <= p.Room() && p.head + n <= p.size + 1 + p.threshold
    case PutRows(rows, n) =>
      && 1 <= |rows| <= p.Channels() && (forall c | 0 <= c < |rows| :: n <= |rows[c]|)
      && (p.threshold > 0 || n == 0 || p.Room() < n)
    case GetRead(n, chan) => chan < p.Channels()
    case Look(n, chan) => chan < p.Channels() && n <= p.lent[chan]
    case Release(n) => n <= p.count
    case TakeRows(n, width) => 1 <= width <= p.Channels() && (p.threshold > 0 || n == 0 || p.count < n)
    case Enlarge(len, thresh) => p.threshold > 0 || p.count == 0
    case Empty => true
  }

  function Committed(p: Plain, n: nat): (r: seq<Cells>)
    requires |p.open| == |p.queued|
    ensures |r| == |p.queued| && forall c | 0 <= c < |r| :: r[c] == Widen(p.open[c], n)[..n]
  {
    seq(|p.queued|, c requires 0 <= c < |p.queued| => Widen(p.open[c], n)[..n])
  }

  function Put(rows: seq<seq<Byte>>, n: nat, channels: nat): (r: seq<Cells>)
    requires |rows| <= channels && forall c | 0 <= c < |rows| :: n <= |rows[c]|
    ensures |r| == channels && forall c | 0 <= c < |r| :: r[c] == if c < |rows| then Known(rows[c][..n]) else Unknown(n)
  {
    seq(channels, c requires 0 <= c < channels => if c < |rows| then Known(rows[c][..n]) else Unknown(n))
  }

  /** The plain sequences after a call. */
  ghost function Next(p: Plain, op: Op): (r: Plain)
    requires p.Valid() && Allowed(p, op)
    ensures r.Valid()
  {
    match op
    case GetWrite(n, chan) =>
      if n <= p.Room() && n <= p.threshold then p.Opened(n, chan) else p
    case Store(chan, off, bytes) => p.Stored(chan, off, bytes)
    case Commit(n) => p.Appended(Committed(p, n), n)
    case PutRows(rows, n) => if n <= p.Room() then p.Appended(Put(rows, n, p.Channels()), n) else p
    case GetRead(n, chan) =>
      if n <= p.count && n <= p.threshold then p.Lending(n, chan) else p
    case Look(_, _) => p
    case Release(n) => p.Dropped(n)
    case TakeRows(n, _) => if n <= p.count then p.Dropped(n) else p
    case Enlarge(len, thresh) => p.Enlarged(len, thresh)
    case Empty => p.Dropped(p.count).(head := 0, open := seq(p.Channels(), _ => []))
  }

  /** The replies a plain sequence allows. */
  ghost predicate Answers(p: Plain, op: Op, reply: Reply)
    requires p.Valid() && Allowed(p, op)
  {
    match op
    case GetWrite(n, chan) => reply == if n <= p.Room() && n <= p.threshold then Done else Refused
    case PutRows(rows, n) => reply == if n <= p.Room() then Done else Refused
    case GetRead(n, chan) =>
      if n <= p.count && n <= p.threshold then IsPiece(reply, p.queued[chan][..n]) else reply == Refused
    case Look(n, chan) => IsPiece(reply, p.queued[chan][..n])
    case TakeRows(n, width) =>
      if n <= p.count then
        reply.Bytes? && |reply.rows| == width && forall c | 0 <= c < width :: Matches(reply.rows[c], p.queued[c][..n])
      else reply == Refused
    case _ => reply == Done
  }

  ghost predicate IsPiece(reply: Reply, p: Cells) {
    reply.Bytes? && |reply.rows| == 1 && Matches(reply.rows[0], p)
  }

  ghost predicate Represents(q: CircularQueue, p: Plain)
    reads q
  {
    && q.Valid() && p.Valid() && q.queueLength == p.size + 1 && q.maxThreshold == p.threshold
    && q.numChannels == p.Channels() && q.Count() == p.count && q.head == p.head
    && forall c | 0 <= c < q.numChannels ::
         Matches(q.Contents(c), p.queued[c]) && Matches(q.WriteWindow(c, |p.open[c]|), p.open[c])
           && p.lent[c] <= q.lent[c]
  }

  lemma StoreMatches(row: seq<Byte>, at: nat, p: Cells, off: nat, bytes: seq<Byte>)
    requires at + |p| <= |row| && Matches(Window(row, at, |p|), p) && off + |bytes| <= |p|
    ensures Matches(Window(Overlay(row, at + off, bytes), at, |p|), Overlay(p, off, Known(bytes)))
  {
    OverlayWindow(row, at, |p|, off, bytes);
    OverlayMatches(Window(row, at, |p|), p, off, bytes);
  }

  /** The window as wide as wanted: what was known of it, and nothing of the rest. */
  lemma WidenMatches(row: seq<Byte>, at: nat, p: Cells, n: nat)
    requires at + |p| <= |row| && at + n <= |row| && Matches(Window(row, at, |p|), p)
    ensures Matches(Window(row, at, Max(|p|, n)), Widen(p, n)) && Matches(Window(row, at, n), Widen(p, n)[..n])
  {
    var w := Window(row, at, |p|);
    forall i | 0 <= i < Max(|p|, n)
      ensures Widen(p, n)[i] == None || Widen(p, n)[i] == Some(row[at + i])
    {
      assert i < |p| ==> w[i] == row[at + i];
    }
  }

  // ---- one method a call

  method DoGetWrite(q: CircularQueue, n: nat, chan: nat, ghost p: Plain) returns (reply: Reply)
    requires Represents(q, p) && Allowed(p, GetWrite(n, chan))
    ensures Represents(q, Next(p, GetWrite(n, chan))) && Answers(p, GetWrite(n, chan), reply)
  {
    UsedAndFree(q.queueLength, q.head, q.tail);
    var at := q.GetRawEnqueuePtr(n, chan);
    if at.Some? {
      WidenMatches(q.buffer[chan], q.head, p.open[chan], n);
    }
    reply := if at.Some? then Done else Refused;
  }

  method DoStore(q: CircularQueue, chan: nat, off: nat, bytes: seq<Byte>, ghost p: Plain)
    requires Represents(q, p) && Allowed(p, Store(chan, off, bytes))
    modifies q`buffer
    ensures Represents(q, Next(p, Store(chan, off, bytes)))
  {
    UsedAndFree(q.queueLength, q.head, q.tail);
    ghost var was, p' := q.buffer, p.Stored(chan, off, bytes);
    q.Write(chan, off, bytes);
    forall c | 0 <= c < q.numChannels
      ensures |p'.open[c]| == |p.open[c]| && Matches(q.WriteWindow(c, |p'.open[c]|), p'.open[c])
    {
      if c == chan {
        StoreMatches(was[chan], q.head, p.open[chan], off, bytes);
      } else {
        assert q.buffer[c] == was[c];
      }
    }
  }

  method DoCommit(q: CircularQueue, n: nat, ghost p: Plain)
    requires Represents(q, p) && Allowed(p, Commit(n))
    modifies q`head, q`buffer
    ensures Represents(q, Next(p, Commit(n)))
  {
    UsedAndFree(q.queueLength, q.head, q.tail);
    forall c | 0 <= c < q.numChannels
      ensures Matches(q.Contents(c) + q.WriteWindow(c, n), p.queued[c] + Committed(p, n)[c])
    {
      WidenMatches(q.buffer[c], q.head, p.open[c], n);
      AppendMatches(q.Contents(c), p.queued[c], q.WriteWindow(c, n), Committed(p, n)[c]);
    }
    q.Enqueue(n);
    UsedAndFree(q.queueLength, q.head, q.tail);
  }

  method DoPutRows(q: CircularQueue, rows: seq<seq<Byte>>, n: nat, ghost p: Plain) returns (reply: Reply)
    requires Represents(q, p) && Allowed(p, PutRows(rows, n))
    modifies q`head, q`buffer
    ensures Represents(q, Next(p, PutRows(rows, n))) && Answers(p, PutRows(rows, n), reply)
  {
    UsedAndFree(q.queueLength, q.head, q.tail);
    ghost var was := q.AllContents();
    var ok := q.RawEnqueue(rows, n);
    UsedAndFree(q.queueLength, q.head, q.tail);
    if ok {
      forall c | 0 <= c < q.numChannels
        ensures Matches(q.Contents(c), p.queued[c] + Put(rows, n, p.Channels())[c])
      {
        PutMatches(was[c], q.Contents(c), p.queued[c], if c < |rows| then Some(rows[c][..n]) else None, n);
      }
    }
    reply := if ok then Done else Refused;
  }

  method DoGetRead(q: CircularQueue, n: nat, chan: nat, ghost p: Plain) returns (reply: Reply)
    requires Represents(q, p) && Allowed(p, GetRead(n, chan))
    modifies q`buffer, q`lent
    ensures Represents(q, Next(p, GetRead(n, chan))) && Answers(p, GetRead(n, chan), reply)
  {
    UsedAndFree(q.queueLength, q.head, q.tail);
    if n <= q.Count() {
      SliceMatches(q.Contents(chan), p.queued[chan], n);
    }
    var at := q.GetRawDequeuePtr(n, chan);
    reply := if at.Some? then Bytes([q.buffer[chan][at.value..at.value + n]]) else Refused;
    forall c | 0 <= c < q.numChannels
      ensures Matches(q.Contents(c), p.queued[c]) && Matches(q.WriteWindow(c, |p.open[c]|), p.open[c])
    {
      assert |p.open[c]| <= q.Freespace();
    }
  }

  /** Reading again through a pointer got earlier. */
  method DoLook(q: CircularQueue, n: nat, chan: nat, ghost p: Plain) returns (reply: Reply)
    requires Represents(q, p) && Allowed(p, Look(n, chan))
    ensures Answers(p, Look(n, chan), reply)
  {
    reply := Bytes([q.buffer[chan][q.tail..q.tail + n]]);
    assert Shows(q.buffer[chan], q.queueLength, q.tail, q.lent[chan]);
    SliceMatches(q.Contents(chan), p.queued[chan], n);
    LentShows(q.buffer[chan], q.queueLength, q.tail, n, q.lent[chan], q.Count());
  }

  lemma LentShows(row: seq<Byte>, ql: nat, tail: nat, n: nat, lent: nat, used: nat)
    requires tail < ql <= |row| && n <= lent <= used <= ql && tail + lent <= |row| && Shows(row, ql, tail, lent)
    ensures row[tail..tail + n] == Ring(row, ql, tail, used)[..n]
  {
    assert row[tail..tail + n] == Window(row, tail, lent)[..n];
    assert Ring(row, ql, tail, lent)[..n] == Ring(row, ql, tail, used)[..n];
  }

  method DoRelease(q: CircularQueue, n: nat, ghost p: Plain)
    requires Represents(q, p) && Allowed(p, Release(n))
    modifies q`tail, q`lent
    ensures Represents(q, Next(p, Release(n)))
  {
    UsedAndFree(q.queueLength, q.head, q.tail);
    forall c | 0 <= c < q.numChannels
      ensures Matches(q.Contents(c)[n..], p.queued[c][n..])
    {
      SliceMatches(q.Contents(c), p.queued[c], n);
    }
    q.Dequeue(n);
  }

  method DoTakeRows(q: CircularQueue, n: nat, width: nat, ghost p: Plain) returns (reply: Reply)
    requires Represents(q, p) && Allowed(p, TakeRows(n, width))
    modifies q`tail, q`buffer, q`lent
    ensures Represents(q, Next(p, TakeRows(n, width))) && Answers(p, TakeRows(n, width), reply)
  {
    UsedAndFree(q.queueLength, q.head, q.tail);
    if n <= q.Count() {
      forall c | 0 <= c < q.numChannels
        ensures Matches(q.Contents(c)[..n], p.queued[c][..n]) && Matches(q.Contents(c)[n..], p.queued[c][n..])
      {
        SliceMatches(q.Contents(c), p.queued[c], n);
      }
    }
    var ok, data := q.RawDequeue(n, width);
    reply := if ok then Bytes(data) else Refused;
  }

  method DoEnlarge(q: CircularQueue, len: nat, thresh: nat, ghost p: Plain)
    requires Represents(q, p) && Allowed(p, Enlarge(len, thresh))
    modifies q
    ensures Represents(q, Next(p, Enlarge(len, thresh)))
  {
    q.Grow(len, thresh);
  }

  method DoEmpty(q: CircularQueue, ghost p: Plain)
    requires Represents(q, p)
    modifies q`head, q`tail, q`lent
    ensures Represents(q, Next(p, Empty))
  {
    q.Clear();
  }

  /**
   * One call. A pointer got earlier stays where it was, `head` or `tail`, until a call that
   * closes its window.
   */
  method Do(q: CircularQueue, op: Op, ghost p: Plain) returns (reply: Reply)
    requires Represents(q, p) && Allowed(p, op)
    modifies q
    ensures Represents(q, Next(p, op)) && Answers(p, op, reply)
    ensures op.Commit? || op.PutRows? || op.Enlarge? || op.Empty? || q.head == old(q.head)
    ensures op.Release? || op.TakeRows? || op.Enlarge? || op.Empty? || q.tail == old(q.tail)
  {
    reply := Done;
    match op
    case GetWrite(n, chan) => reply := DoGetWrite(q, n, chan, p);
    case Store(chan, off, bytes) => DoStore(q, chan, off, bytes, p);
    case Commit(n) => DoCommit(q, n, p);
    case PutRows(rows, n) => reply := DoPutRows(q, rows, n, p);
    case GetRead(n, chan) => reply := DoGetRead(q, n, chan, p);
    case Look(n, chan) => reply := DoLook(q, n, chan, p);
    case Release(n) => DoRelease(q, n, p);
    case TakeRows(n, width) => reply := DoTakeRows(q, n, width, p);
    case Enlarge(len, thresh) => DoEnlarge(q, len, thresh, p);
    case Empty => DoEmpty(q, p);
  }

  // ---- runs

  ghost predicate AllAllowed(p: Plain, ops: seq<Op>)
    requires p.Valid()
    decreases |ops|
  {
    ops == [] || (Allowed(p, ops[0]) && AllAllowed(Next(p, ops[0]), ops[1..]))
  }

  ghost function NextAll(p: Plain, ops: seq<Op>): (r: Plain)
    requires p.Valid() && AllAllowed(p, ops)
    ensures r.Valid()
    decreases |ops|
  {
    if ops == [] then p else NextAll(Next(p, ops[0]), ops[1..])
  }

  ghost predicate AllAnswer(p: Plain, ops: seq<Op>, replies: seq<Reply>)
    requires p.Valid() && AllAllowed(p, ops)
    decreases |ops|
  {
    |replies| == |ops| &&
    (ops == [] || (Answers(p, ops[0], replies[0]) && AllAnswer(Next(p, ops[0]), ops[1..], replies[1..])))
  }

  /** Any calls in any order: the object answers as the plain sequences do and stays alike. */
  method Run(q: CircularQueue, ops: seq<Op>, ghost p: Plain) returns (replies: seq<Reply>)
    requires Represents(q, p) && AllAllowed(p, ops)
    modifies q
    ensures Represents(q, NextAll(p, ops)) && AllAnswer(p, ops, replies)
    decreases |ops|
  {
    replies := [];
    if ops != [] {
      var reply := Do(q, ops[0], p);
      var rest := Run(q, ops[1..], Next(p, ops[0]));
      replies := [reply] + rest;
      assert replies[1..] == rest;
    }
  }

  function Fresh(size: nat, thresh: nat, channels: nat): Plain {
    Plain(Max(size, thresh), thresh, 0, 0, seq(channels, _ => []), seq(channels, _ => []), seq(channels, _ => 0))
  }

  method Start(size: nat, thresh: nat, channels: nat) returns (q: CircularQueue)
    requires channels >= 1
    ensures fresh(q) && Represents(q, Fresh(size, thresh, channels))
  {
    q := new CircularQueue(size, thresh, channels);
  }

  // ---- what the plain sequences promise

  /** The cells one call adds to a channel. */
  ghost function Given(p: Plain, op: Op, c: nat): Cells
    requires p.Valid() && Allowed(p, op) && c < p.Channels()
  {
    match op
    case Commit(n) => Committed(p, n)[c]
    case PutRows(rows, n) => if n <= p.Room() then Put(rows, n, p.Channels())[c] else []
    case _ => []
  }

  /** The cells one call takes from a channel. */
  ghost function Taken(p: Plain, op: Op, c: nat): Cells
    requires p.Valid() && Allowed(p, op) && c < p.Channels()
  {
    match op
    case Release(n) => p.queued[c][..n]
    case TakeRows(n, _) => if n <= p.count then p.queued[c][..n] else []
    case Empty => p.queued[c]
    case _ => []
  }

  ghost function GivenAll(p: Plain, ops: seq<Op>, c: nat): Cells
    requires p.Valid() && AllAllowed(p, ops) && c < p.Channels()
    decreases |ops|
  {
    if ops == [] then [] else
    NextChannels(p, ops[0]);
    Given(p, ops[0], c) + GivenAll(Next(p, ops[0]), ops[1..], c)
  }

  ghost function TakenAll(p: Plain, ops: seq<Op>, c: nat): Cells
    requires p.Valid() && AllAllowed(p, ops) && c < p.Channels()
    decreases |ops|
  {
    if ops == [] then [] else
    NextChannels(p, ops[0]);
    Taken(p, ops[0], c) + TakenAll(Next(p, ops[0]), ops[1..], c)
  }

  lemma NextChannels(p: Plain, op: Op)
    requires p.Valid() && Allowed(p, op)
    ensures Next(p, op).Channels() == p.Channels()
  {
  }

  lemma StepInOrder(p: Plain, op: Op, c: nat)
    requires p.Valid() && Allowed(p, op) && c < p.Channels()
    ensures Next(p, op).Channels() == p.Channels()
    ensures p.queued[c] + Given(p, op, c) == Taken(p, op, c) + Next(p, op).queued[c]
  {
  }

  /** First in, first out on every channel: nothing lost, repeated or reordered over any run. */
  lemma {:induction false} FirstInFirstOut(p: Plain, ops: seq<Op>, c: nat)
    requires p.Valid() && AllAllowed(p, ops) && c < p.Channels()
    ensures NextAll(p, ops).Channels() == p.Channels()
    ensures p.queued[c] + GivenAll(p, ops, c) == TakenAll(p, ops, c) + NextAll(p, ops).queued[c]
    decreases |ops|
  {
    if ops != [] {
      var p' := Next(p, ops[0]);
      StepInOrder(p, ops[0], c);
      FirstInFirstOut(p', ops[1..], c);
      Regroup(p.queued[c], Given(p, ops[0], c), GivenAll(p', ops[1..], c), p'.queued[c],
              Taken(p, ops[0], c), TakenAll(p', ops[1..], c), NextAll(p', ops[1..]).queued[c]);
    }
  }

  predicate ReaderCall(op: Op) {
    op.GetRead? || op.Look? || op.Release? || op.TakeRows?
  }

  predicate WriterCall(op: Op) {
    op.GetWrite? || op.Store? || op.Commit? || op.PutRows?
  }

  lemma ReaderStep(p: Plain, op: Op)
    requires p.Valid() && Allowed(p, op) && ReaderCall(op)
    ensures Next(p, op).open == p.open
  {
  }

  lemma WriterStep(p: Plain, op: Op)
    requires p.Valid() && Allowed(p, op) && WriterCall(op)
    ensures Next(p, op).lent == p.lent && forall c | 0 <= c < p.Channels() :: p.queued[c] <= Next(p, op).queued[c]
  {
  }

  /** Whatever the reader does, the bytes a writer has stored and not committed stand. */
  lemma {:induction false} ReaderLeavesWindows(p: Plain, ops: seq<Op>)
    requires p.Valid() && AllAllowed(p, ops) && forall op | op in ops :: ReaderCall(op)
    ensures NextAll(p, ops).open == p.open
    decreases |ops|
  {
    if ops != [] {
      assert ops[0] in ops && forall op | op in ops[1..] :: op in ops;
      ReaderStep(p, ops[0]);
      ReaderLeavesWindows(Next(p, ops[0]), ops[1..]);
    }
  }

  /** Whatever the writer does, the bytes lent to the reader stand. */
  lemma {:induction false} WriterLeavesLent(p: Plain, ops: seq<Op>, c: nat)
    requires p.Valid() && AllAllowed(p, ops) && c < p.Channels() && forall op | op in ops :: WriterCall(op)
    ensures var p' := NextAll(p, ops);
            p'.Channels() == p.Channels() && p'.lent == p.lent && p.queued[c] <= p'.queued[c]
    decreases |ops|
  {
    if ops != [] {
      assert ops[0] in ops && forall op | op in ops[1..] :: op in ops;
      NextChannels(p, ops[0]);
      WriterStep(p, ops[0]);
      WriterLeavesLent(Next(p, ops[0]), ops[1..], c);
    }
  }
}

/** One channel of a ring buffer with a spill region past its end, as a sequence of bytes. */
module RingRows {
  type Byte = x: int | 0 <= x < 256

  /** `ql` is the ring size: one more than the capacity, the extra cell telling full from empty. */
  function Used(ql: nat, head: nat, tail: nat): nat
    requires head < ql && tail < ql
  {
    if head >= tail then head - tail else head + (ql - tail)
  }

  function Free(ql: nat, head: nat, tail: nat): nat
    requires head < ql && tail < ql
  {
    if head >= tail then ql - (head - tail) - 1 else tail - head - 1
  }

  function Wrap(i: nat, ql: nat): nat
    requires i < 2 * ql
  {
    if i < ql then i else i - ql
  }

  /** The `n` bytes queued from `tail` on, around the ring. */
  function Ring(row: seq<Byte>, ql: nat, tail: nat, n: nat): (s: seq<Byte>)
    requires tail < ql <= |row| && n <= ql
    ensures |s| == n && forall i {:trigger s[i]} | 0 <= i < n :: s[i] == row[Wrap(tail + i, ql)]
  {
    seq(n, i requires 0 <= i < n => row[Wrap(tail + i, ql)])
  }

  /** Copy the first `k` bytes of the spill region to the front of the ring. */
  function Unspill(row: seq<Byte>, ql: nat, k: nat): (r: seq<Byte>)
    requires k <= ql && ql + k <= |row|
    ensures |r| == |row| && forall i {:trigger r[i]} | 0 <= i < |row| :: r[i] == if i < k then row[ql + i] else row[i]
  {
    seq(|row|, i requires 0 <= i < |row| => if i < k then row[ql + i] else row[i])
  }

  /** Copy the first `k` bytes of the ring to the spill region. */
  function Spill(row: seq<Byte>, ql: nat, k: nat): (r: seq<Byte>)
    requires k <= ql && ql + k <= |row|
    ensures |r| == |row| && forall i {:trigger r[i]} | 0 <= i < |row| ::
         r[i] == if ql <= i < ql + k then row[i - ql] else row[i]
  {
    seq(|row|, i requires 0 <= i < |row| => if ql <= i < ql + k then row[i - ql] else row[i])
  }

  lemma UsedAndFree(ql: nat, head: nat, tail: nat)
    requires head < ql && tail < ql
    ensures Used(ql, head, tail) + Free(ql, head, tail) == ql - 1
    ensures Wrap(tail + Used(ql, head, tail), ql) == head
  {
  }

  /** How far an enqueue of `n` at `head` runs into the spill region. */
  function Over(ql: nat, at: nat, n: nat): nat {
    if at + n >= ql then at + n - ql else 0
  }

  /** Committing `n` bytes appends exactly what stands in the window at `head`. */
  lemma EnqueueAppends(row: seq<Byte>, ql: nat, head: nat, tail: nat, n: nat)
    requires head < ql && tail < ql && n <= Free(ql, head, tail) && head + n <= |row| && ql <= |row|
    ensures Over(ql, head, n) <= ql
    ensures var row' := Unspill(row, ql, Over(ql, head, n));
            Ring(row', ql, tail, Used(ql, head, tail) + n)
              == Ring(row, ql, tail, Used(ql, head, tail)) + Window(row, head, n)
  {
    var u := Used(ql, head, tail);
    UsedAndFree(ql, head, tail);
    var row' := Unspill(row, ql, Over(ql, head, n));
    var left, right := Ring(row', ql, tail, u + n), Ring(row, ql, tail, u) + Window(row, head, n);
    forall i | 0 <= i < u + n
      ensures left[i] == right[i]
    {
    }
  }

  /** The `n` bytes that stand at `at` in one piece. */
  function Window(row: seq<Byte>, at: nat, n: nat): (s: seq<Byte>)
    requires at + n <= |row|
    ensures |s| == n
  {
    row[at..at + n]
  }

  /** The first `n` bytes queued stand at `tail` in one piece. */
  predicate Shows(row: seq<Byte>, ql: nat, tail: nat, n: nat)
    requires tail < ql <= |row| && n <= ql && tail + n <= |row|
  {
    Window(row, tail, n) == Ring(row, ql, tail, n)
  }

  /** Cell `j` of the ring is one of the `n` from `tail` on, around the ring. */
  predicate InRing(ql: nat, tail: nat, n: nat, j: nat) {
    tail <= j < tail + n || tail <= j + ql < tail + n
  }

  /** None of the `n` cells from `at` on stands for a queued one, or is in the window lent from `tail` on. */
  ghost predicate Apart(ql: nat, at: nat, n: nat, tail: nat, used: nat, lent: nat)
    requires at + n <= 2 * ql
  {
    forall i | at <= i < at + n :: !InRing(ql, tail, used, Wrap(i, ql)) && !(tail <= i < tail + lent)
  }

  /**
   * The window open for writing shares no cell with what is queued nor with the window open
   * for reading, and only one of the two can reach into the spill region.
   */
  lemma WindowsApart(ql: nat, head: nat, tail: nat, granted: nat, lent: nat)
    requires head < ql && tail < ql && granted <= Free(ql, head, tail) && lent <= Used(ql, head, tail)
    ensures Apart(ql, head, granted, tail, Used(ql, head, tail), lent)
    ensures !(head + granted > ql && tail + lent > ql)
  {
  }

  /** Lending leaves the window open for writing as it was. */
  lemma SpillKeepsWindow(row: seq<Byte>, row': seq<Byte>, ql: nat, head: nat, tail: nat, n: nat)
    requires head < ql && tail < ql && n <= Used(ql, head, tail) && ql <= |row| && tail + n <= |row|
    requires row' == if tail + n > ql then Spill(row, ql, tail + n - ql) else row
    ensures forall open: nat | open <= Free(ql, head, tail) && head + open <= |row| ::
         Window(row', head, open) == Window(row, head, open)
  {
    forall open: nat | open <= Free(ql, head, tail) && head + open <= |row|
      ensures Window(row', head, open) == Window(row, head, open)
    {
      WindowsApart(ql, head, tail, open, n);
    }
  }

  /** After spilling, `n` bytes show at `tail`, what showed still does, and the ring is as it was. */
  lemma SpillRow(row: seq<Byte>, row': seq<Byte>, ql: nat, mt: nat, head: nat, tail: nat, n: nat, lent: nat)
    requires head < ql && tail < ql && n <= Used(ql, head, tail) && lent <= Used(ql, head, tail)
    requires |row| == ql + mt && n <= mt && lent <= mt && Shows(row, ql, tail, lent)
    requires row' == if tail + n > ql then Spill(row, ql, tail + n - ql) else row
    ensures var u := Used(ql, head, tail);
            Shows(row', ql, tail, n) && Shows(row', ql, tail, lent) && Ring(row', ql, tail, u) == Ring(row, ql, tail, u)
            && Window(row', tail, n) == Ring(row, ql, tail, u)[..n]
  {
    UsedAndFree(ql, head, tail);
    var w, g := Window(row, tail, lent), Ring(row, ql, tail, lent);
    forall i | 0 <= i < lent
      ensures Window(row', tail, lent)[i] == Ring(row', ql, tail, lent)[i]
    {
      assert w[i] == g[i];
    }
  }

  function Overlay<T>(row: seq<T>, at: nat, bytes: seq<T>): (r: seq<T>)
    requires at + |bytes| <= |row|
    ensures |r| == |row|
  {
    row[..at] + bytes + row[at + |bytes|..]
  }

  lemma OverlayWindow(row: seq<Byte>, at: nat, n: nat, off: nat, bytes: seq<Byte>)
    requires off + |bytes| <= n && at + n <= |row|
    ensures Window(Overlay(row, at + off, bytes), at, n) == Overlay(Window(row, at, n), off, bytes)
  {
    var left, right := Window(Overlay(row, at + off, bytes), at, n), Overlay(Window(row, at, n), off, bytes);
    forall i | 0 <= i < n
      ensures left[i] == right[i]
    {
      if off <= i < off + |bytes| {
        assert left[i] == bytes[i - off];
      } else {
        assert left[i] == row[at + i];
      }
    }
  }

  /** Bytes written in the open window change it alone: neither what is queued nor what is lent. */
  lemma WriteRow(row: seq<Byte>, ql: nat, mt: nat, head: nat, tail: nat, off: nat, bytes: seq<Byte>, lent: nat)
    requires head < ql && tail < ql && off + |bytes| <= Free(ql, head, tail) && off + |bytes| <= mt
    requires |row| == ql + mt && lent <= Used(ql, head, tail) && lent <= mt && Shows(row, ql, tail, lent)
    ensures var row' := Overlay(row, head + off, bytes);
            var u := Used(ql, head, tail);
            && Ring(row', ql, tail, u) == Ring(row, ql, tail, u) && Shows(row', ql, tail, lent)
            && Window(row', head, mt) == Overlay(Window(row, head, mt), off, bytes)
  {
    UsedAndFree(ql, head, tail);
    var row', u := Overlay(row, head + off, bytes), Used(ql, head, tail);
    assert Window(row', tail, lent) == Window(row, tail, lent);
    assert Ring(row', ql, tail, u) == Ring(row, ql, tail, u) by {
      forall i | 0 <= i < u
        ensures Ring(row', ql, tail, u)[i] == Ring(row, ql, tail, u)[i]
      {
        assert !(head + off <= Wrap(tail + i, ql) < head + off + |bytes|);
      }
    }
    assert Ring(row', ql, tail, lent) == Ring(row', ql, tail, u)[..lent];
    assert Ring(row, ql, tail, lent) == Ring(row, ql, tail, u)[..lent];
    OverlayWindow(row, head, mt, off, bytes);
  }

  /** Releasing `n` bytes drops exactly the first `n`. */
  lemma DequeueDrops(row: seq<Byte>, ql: nat, head: nat, tail: nat, n: nat)
    requires head < ql && tail < ql && n <= Used(ql, head, tail) && ql <= |row|
    ensures var tail' := Wrap(tail + n, ql);
            && Used(ql, head, tail') == Used(ql, head, tail) - n
            && Ring(row, ql, tail', Used(ql, head, tail) - n) == Ring(row, ql, tail, Used(ql, head, tail))[n..]
  {
    var tail' := Wrap(tail + n, ql);
    var u := Used(ql, head, tail);
    forall i | 0 <= i < u - n
      ensures Ring(row, ql, tail', u - n)[i] == Ring(row, ql, tail, u)[n..][i]
    {
      assert Wrap(tail' + i, ql) == Wrap(tail + (n + i), ql);
    }
  }

  /** A commit, on one row: the window joins the queue and the lent window stands. */
  lemma CommitRow(row: seq<Byte>, row': seq<Byte>, ql: nat, head: nat, tail: nat, n: nat, lent: nat)
    requires head < ql && tail < ql && n <= Free(ql, head, tail) && head + n <= |row|
    requires ql <= |row| && lent <= Used(ql, head, tail) && tail + lent <= |row| && Shows(row, ql, tail, lent)
    requires row' == if head + n >= ql then Unspill(row, ql, head + n - ql) else row
    ensures Ring(row', ql, tail, Used(ql, head, tail) + n)
         == Ring(row, ql, tail, Used(ql, head, tail)) + Window(row, head, n)
    ensures Shows(row', ql, tail, lent)
  {
    assert row' == Unspill(row, ql, Over(ql, head, n));
    EnqueueAppends(row, ql, head, tail, n);
    assert Window(row', tail, lent) == Window(row, tail, lent);
    assert Ring(row', ql, tail, lent) == Ring(row, ql, tail, lent);
  }

  // ---- growing

  /** Ring size and threshold after a request to grow. */
  function Grown(ql: nat, maxThresh: nat, wantLen: nat, wantThresh: nat): (nat, nat) {
    if wantLen <= ql && wantThresh <= maxThresh then (ql, maxThresh)
    else ((if wantLen < ql then ql else wantLen) + 1, if wantThresh < maxThresh then maxThresh else wantThresh)
  }

  /**
   * Growing never shrinks, and it meets the request except in one case: a length of exactly
   * one more than the present capacity with a threshold that is already met is ignored.
   */
  lemma GrowMeetsRequest(capacity: nat, maxThresh: nat, wantLen: nat, wantThresh: nat)
    ensures var (ql', mt') := Grown(capacity + 1, maxThresh, wantLen, wantThresh);
            && ql' - 1 >= capacity && mt' >= maxThresh
            && ((ql' - 1 >= wantLen && mt' >= wantThresh) <==> !(wantLen == capacity + 1 && wantThresh <= maxThresh))
  {
  }

  lemma OneMoreIsIgnored()
    ensures Grown(4092 + 1, 4092, 4093, 10) == (4093, 4092)
  {
  }
}

/** The socket loops: segments out through short writes, channels in through short reads. */
module Wire {
  import opened RingRows
  import opened Segments

  // ---- writing

  class Sender {
    /** Everything that has gone out. */
    var wire: seq<Byte>

    constructor ()
      ensures wire == []
    {
      wire := [];
    }

    /** The system call: some of the bytes, at least one. */
    method Writev(iov: seq<seq<Byte>>) returns (num: nat)
      requires Flatten(iov) != []
      modifies this
      ensures 1 <= num <= |Flatten(iov)| && wire == old(wire) + Flatten(iov)[..num]
    {
      num :| 1 <= num <= |Flatten(iov)|;
      wire := wire + Flatten(iov)[..num];
    }

    method Write(bytes: seq<Byte>) returns (num: nat)
      requires bytes != []
      modifies this
      ensures 1 <= num <= |bytes| && wire == old(wire) + bytes[..num]
    {
      num :| 1 <= num <= |bytes|;
      wire := wire + bytes[..num];
    }

    /** The inner loop that finishes a section cut short. */
    method Finish(section: seq<Byte>, from: nat)
      requires from <= |section|
      modifies this
      ensures wire == old(wire) + section[from..]
    {
      var amount := from;
      while amount < |section|
        invariant from <= amount <= |section| && wire == old(wire) + section[from..amount]
      {
        var more := Write(section[amount..]);
        assert section[from..amount] + section[amount..][..more] == section[from..amount + more];
        assert old(wire) + section[from..amount] + section[amount..][..more]
          == old(wire) + section[from..amount + more];
        amount := amount + more;
      }
    }

    /** One turn of the loop: some bytes out, and the segments that are left. */
    method WriteSome(segments: seq<seq<Byte>>) returns (iov: seq<seq<Byte>>, written: nat)
      requires Flatten(segments) != []
      modifies this
      ensures 1 <= written <= |Flatten(segments)| && wire == old(wire) + Flatten(segments)[..written]
      ensures written < |Flatten(segments)| ==> Flatten(iov) == Flatten(segments)[written..]
    {
      written := Writev(segments);
      iov := segments;
      if written == |Flatten(segments)| {
        return;
      }
      var num;
      iov, num := Skip(segments, written);
      if num > 0 {
        Finish(iov[0], num);
        NextSection(Flatten(segments), iov, num, written);
        Onward(old(wire), Flatten(segments), written, |iov[0]| - num);
        written := written + (|iov[0]| - num);
        iov := iov[1..];
      }
    }

    /** However the writes are cut short, exactly the concatenation of the segments goes out. */
    method WriteBytes(segments: seq<seq<Byte>>)
      modifies this
      ensures wire == old(wire) + Flatten(segments)
    {
      var total := Total(segments);
      ghost var all := Flatten(segments);
      var iov := segments;
      var numwritten: nat := 0;
      while numwritten < total
        invariant numwritten <= total && wire == old(wire) + all[..numwritten]
        invariant numwritten < total ==> Flatten(iov) == all[numwritten..]
      {
        var num;
        iov, num := WriteSome(iov);
        Onward(old(wire), all, numwritten, num);
        numwritten := numwritten + num;
      }
      assert all[..total] == all;
    }
  }

  method Total(segments: seq<seq<Byte>>) returns (total: nat)
    ensures total == |Flatten(segments)|
  {
    total := 0;
    var i := 0;
    while i < |segments|
      invariant i <= |segments| && total == |Flatten(segments[..i])|
    {
      FlattenSnoc(segments, i);
      total := total + |segments[i]|;
      i := i + 1;
    }
    assert segments[..i] == segments;
  }

  /** Step over the segments that are out in full. */
  method Skip(segments: seq<seq<Byte>>, written: nat) returns (iov: seq<seq<Byte>>, num: nat)
    requires written < |Flatten(segments)|
    ensures iov != [] && num < |iov[0]| && Flatten(iov)[num..] == Flatten(segments)[written..]
  {
    iov, num := segments, written;
    while |iov[0]| <= num
      invariant num < |Flatten(iov)| && Flatten(iov)[num..] == Flatten(segments)[written..]
      decreases |iov|
    {
      assert Flatten(iov)[num..] == Flatten(iov[1..])[num - |iov[0]|..];
      num := num - |iov[0]|;
      iov := iov[1..];
    }
  }

  lemma Onward(was: seq<Byte>, all: seq<Byte>, done: nat, n: nat)
    requires done + n <= |all|
    ensures was + all[..done] + all[done..][..n] == was + all[..done + n]
    ensures was + all[..done] + all[done..done + n] == was + all[..done + n]
    ensures all[done..][n..] == all[done + n..]
  {
    assert all[..done] + all[done..done + n] == all[..done + n];
  }

  lemma NextSection(all: seq<Byte>, iov: seq<seq<Byte>>, num: nat, done: nat)
    requires iov != [] && num < |iov[0]| && done <= |all| && Flatten(iov)[num..] == all[done..]
    ensures var n := |iov[0]| - num;
            done + n <= |all| && iov[0][num..] == all[done..done + n] && Flatten(iov[1..]) == all[done + n..]
  {
    var f := Flatten(iov);
    assert f[num..][..|iov[0]| - num] == iov[0][num..];
    assert f[|iov[0]|..] == Flatten(iov[1..]);
    assert f[num..][|iov[0]| - num..] == f[|iov[0]|..];
  }

  // ---- reading

  /** Put `data` into the rows, starting at offset `off` of the first. */
  function Scatter(rows: seq<seq<Byte>>, off: nat, data: seq<Byte>): (r: seq<seq<Byte>>)
    requires off + |data| <= |Flatten(rows)| && (rows != [] ==> off <= |rows[0]|)
    decreases |rows|
  {
    if data == [] then rows
    else
      var room := |rows[0]| - off;
      if |data| <= room then [Overlay(rows[0], off, data)] + rows[1..]
      else [Overlay(rows[0], off, data[..room])] + Scatter(rows[1..], 0, data[room..])
  }

  predicate SameShape(a: seq<seq<Byte>>, b: seq<seq<Byte>>) {
    |a| == |b| && forall i | 0 <= i < |a| :: |a[i]| == |b[i]|
  }

  lemma {:induction false} ScatterIsOverlay(rows: seq<seq<Byte>>, off: nat, data: seq<Byte>)
    requires off + |data| <= |Flatten(rows)| && (rows != [] ==> off <= |rows[0]|)
    ensures SameShape(Scatter(rows, off, data), rows)
    ensures Flatten(Scatter(rows, off, data)) == Overlay(Flatten(rows), off, data)
    decreases |rows|
  {
    if data == [] {
      assert Overlay(Flatten(rows), off, data) == Flatten(rows);
    } else {
      var room := |rows[0]| - off;
      var r := Scatter(rows, off, data);
      if |data| <= room {
        assert r[1..] == rows[1..];
        assert Overlay(rows[0], off, data) + Flatten(rows[1..]) == Overlay(Flatten(rows), off, data);
      } else {
        ScatterIsOverlay(rows[1..], 0, data[room..]);
        assert r[1..] == Scatter(rows[1..], 0, data[room..]);
        assert Overlay(rows[0], off, data[..room]) + Overlay(Flatten(rows[1..]), 0, data[room..])
          == Overlay(Flatten(rows), off, data);
      }
    }
  }

  lemma {:induction false} SameShapeLength(a: seq<seq<Byte>>, b: seq<seq<Byte>>)
    requires SameShape(a, b)
    ensures |Flatten(a)| == |Flatten(b)|
    decreases |a|
  {
    if a != [] {
      assert |a[0]| == |b[0]|;
      SameShapeLength(a[1..], b[1..]);
    }
  }

  /** Rows are determined by their concatenation and their shape. */
  lemma {:induction false} RowsFromBytes(a: seq<seq<Byte>>, b: seq<seq<Byte>>)
    requires SameShape(a, b) && Flatten(a) == Flatten(b)
    ensures a == b
    decreases |a|
  {
    if a != [] {
      assert |a[0]| == |b[0]|;
      assert Flatten(a)[..|a[0]|] == a[0] && Flatten(b)[..|b[0]|] == b[0];
      assert Flatten(a)[|a[0]|..] == Flatten(a[1..]) && Flatten(b)[|b[0]|..] == Flatten(b[1..]);
      RowsFromBytes(a[1..], b[1..]);
      assert a == [a[0]] + a[1..] && b == [b[0]] + b[1..];
    }
  }

  lemma ReadvSpace(rows: seq<seq<Byte>>, i: nat, off: nat)
    requires i < |rows| && off < |rows[i]|
    ensures |Flatten(rows)| == |Flatten(rows[..i])| + |Flatten(rows[i..])| && off < |Flatten(rows[i..])|
  {
    assert rows == rows[..i] + rows[i..];
    FlattenConcat(rows[..i], rows[i..]);
    assert Flatten(rows[i..]) == rows[i] + Flatten(rows[i..][1..]);
  }

  lemma ReadvFills(rows: seq<seq<Byte>>, i: nat, off: nat, data: seq<Byte>)
    requires i < |rows| && off < |rows[i]| && off + |data| <= |Flatten(rows[i..])|
    ensures var filled := rows[..i] + Scatter(rows[i..], off, data);
            var at := |Flatten(rows[..i])| + off;
            at + |data| <= |Flatten(rows)| && SameShape(filled, rows)
            && Flatten(filled) == Overlay(Flatten(rows), at, data)
  {
    ReadvSpace(rows, i, off);
    ScatterIsOverlay(rows[i..], off, data);
    FlattenConcat(rows[..i], Scatter(rows[i..], off, data));
    FlattenConcat(rows[..i], rows[i..]);
    assert rows == rows[..i] + rows[i..];
    OverlayBehind(Flatten(rows[..i]), Flatten(rows[i..]), off, data);
  }

  lemma OverlayBehind(front: seq<Byte>, back: seq<Byte>, off: nat, data: seq<Byte>)
    requires off + |data| <= |back|
    ensures front + Overlay(back, off, data) == Overlay(front + back, |front| + off, data)
  {
  }

  lemma {:induction false} EmptyRows(rows: seq<seq<Byte>>)
    requires forall c | 0 <= c < |rows| :: rows[c] == []
    ensures Flatten(rows) == []
    decreases |rows|
  {
    if rows != [] {
      EmptyRows(rows[1..]);
    }
  }

  class Receiver {
    /** What has arrived and is still to be read; the peer sends nothing after it. */
    var incoming: seq<Byte>

    constructor (stream: seq<Byte>)
      ensures incoming == stream
    {
      incoming := stream;
    }

    /** The system call: fill some of the space left from row `i` on; zero only at end of file. */
    method Readv(rows: seq<seq<Byte>>, i: nat, off: nat) returns (filled: seq<seq<Byte>>, num: nat)
      requires i < |rows| && off < |rows[i]|
      modifies this
      ensures num <= |old(incoming)| && incoming == old(incoming)[num..] && (num == 0 <==> old(incoming) == [])
      ensures var at := |Flatten(rows[..i])| + off;
              at + num <= |Flatten(rows)| && SameShape(filled, rows)
              && Flatten(filled) == Overlay(Flatten(rows), at, old(incoming)[..num])
    {
      ReadvSpace(rows, i, off);
      var limit := |Flatten(rows[i..])| - off;
      if incoming == [] {
        num := 0;
      } else {
        num :| 1 <= num <= |incoming| && num <= limit;
      }
      var data := incoming[..num];
      filled := rows[..i] + Scatter(rows[i..], off, data);
      ReadvFills(rows, i, off, data);
      incoming := incoming[num..];
    }

    /**
     * The gather loop: `count` bytes for each channel, channel after channel. It fails only
     * when the stream ends first.
     */
    method Gather(windows: seq<seq<Byte>>, count: nat) returns (ok: bool, rows: seq<seq<Byte>>)
      requires forall c | 0 <= c < |windows| :: |windows[c]| == count
      modifies this
      ensures SameShape(rows, windows)
      ensures ok <==> |old(incoming)| >= |Flatten(windows)|
      ensures ok ==> old(incoming) == Flatten(rows) + incoming
    {
      rows := windows;
      var numread: nat, numtoread: nat := 0, |Flatten(windows)|;
      var i: nat, off: nat := 0, 0;
      if count == 0 {
        EmptyRows(windows);
      }
      ghost var stream := incoming;
      while numread < numtoread
        invariant numread <= numtoread && numread <= |stream| && incoming == stream[numread..]
        invariant SameShape(rows, windows) && |Flatten(rows)| == numtoread
             && Flatten(rows)[..numread] == stream[..numread]
        invariant numread < numtoread ==> i < |rows| && off < count && |Flatten(rows[..i])| + off == numread
        decreases numtoread - numread
      {
        ghost var flat, at := Flatten(rows), numread;
        var filled, num := Readv(rows, i, off);
        if num == 0 {
          return false, rows;
        }
        SameShapeLength(filled, rows);
        SameShapePrefix(filled, rows, i);
        GatherStep(stream, flat, at, num);
        rows := filled;
        numread := numread + num;
        if numread == numtoread {
          break;
        }
        i, off := Advance(rows, count, i, off, num);
      }
      ok := true;
      assert Flatten(rows)[..numread] == Flatten(rows);
      assert stream == stream[..numread] + stream[numread..];
    }
  }

  lemma SameShapePrefix(a: seq<seq<Byte>>, b: seq<seq<Byte>>, i: nat)
    requires SameShape(a, b) && i <= |a|
    ensures |Flatten(a[..i])| == |Flatten(b[..i])|
  {
    SameShapeLength(a[..i], b[..i]);
  }

  lemma GatherStep(stream: seq<Byte>, flat: seq<Byte>, at: nat, num: nat)
    requires at + num <= |flat| && at + num <= |stream| && flat[..at] == stream[..at]
    ensures Overlay(flat, at, stream[at..][..num])[..at + num] == stream[..at + num]
    ensures stream[at..][num..] == stream[at + num..]
  {
  }

  /** Move the row and offset past the bytes just read. */
  method Advance(rows: seq<seq<Byte>>, count: nat, i0: nat, off0: nat, num0: nat) returns (i: nat, off: nat)
    requires i0 < |rows| && off0 < count && forall c | 0 <= c < |rows| :: |rows[c]| == count
    requires |Flatten(rows[..i0])| + off0 + num0 < |Flatten(rows)|
    ensures i < |rows| && off < count && |Flatten(rows[..i])| + off == |Flatten(rows[..i0])| + off0 + num0
  {
    var num: nat := num0;
    assert rows[..|rows|] == rows;
    i, off := i0, off0;
    while count - off <= num
      invariant i < |rows| && off < count
      invariant |Flatten(rows[..i])| + off + num == |Flatten(rows[..i0])| + off0 + num0
      decreases |rows| - i
    {
      FlattenSnoc(rows, i);
      num := num - (count - off);
      i, off := i + 1, 0;
    }
    off := off + num;
  }

  /** What one side sends as the windows of its channels, the other side finds in its own. */
  lemma ChannelsArrive(sent: seq<seq<Byte>>, rows: seq<seq<Byte>>, rest: seq<Byte>, after: seq<Byte>)
    requires SameShape(rows, sent) && Flatten(sent) + rest == Flatten(rows) + after
    ensures rows == sent && after == rest
  {
    SameShapeLength(rows, sent);
    assert (Flatten(sent) + rest)[..|Flatten(sent)|] == Flatten(sent);
    assert (Flatten(rows) + after)[..|Flatten(sent)|] == Flatten(rows);
    assert (Flatten(sent) + rest)[|Flatten(sent)|..] == rest;
    assert (Flatten(rows) + after)[|Flatten(sent)|..] == after;
    RowsFromBytes(rows, sent);
  }

  /**
   * One packet across the wire: header and channel windows written by one side, with short
   * writes, and read by the other with short reads, whatever is sent later.
   */
  method Transfer(sender: Sender, header: seq<Byte>, sent: seq<seq<Byte>>, count: nat, later: seq<Byte>,
                  windows: seq<seq<Byte>>) returns (receiver: Receiver, ok: bool, head: seq<Byte>, rows: seq<seq<Byte>>)
    requires SameShape(windows, sent) && forall c | 0 <= c < |sent| :: |sent[c]| == count
    modifies sender
    ensures sender.wire == old(sender.wire) + header + Flatten(sent)
    ensures fresh(receiver) && ok && head == header && rows == sent && receiver.incoming == later
  {
    var before := |sender.wire|;
    sender.WriteBytes([header] + sent);
    FlattenConcat([header], sent);
    FlattenOne(header);
    assert old(sender.wire) + (header + Flatten(sent)) == old(sender.wire) + header + Flatten(sent);
    receiver := new Receiver(sender.wire[before..] + later);
    assert receiver.incoming == header + (Flatten(sent) + later);
    var space := [seq(|header|, _ => 0)];
    FlattenOne(space[0]);
    var headRows;
    ok, headRows := receiver.Gather(space, |header|);
    head := headRows[0];
    FlattenOne(head);
    assert headRows == [head];
    ChannelsArrive([header], headRows, Flatten(sent) + later, receiver.incoming);
    SameShapeLength(windows, sent);
    ok, rows := receiver.Gather(windows, count);
    ChannelsArrive(sent, rows, later, receiver.incoming);
  }

  lemma FlattenOne(row: seq<Byte>)
    ensures Flatten([row]) == row
  {
    assert |[row][1..]| == 0;
    assert Flatten([row]) == row + Flatten([row][1..]);
  }
}

/** Finding packet headers in a byte stream that arrives in arbitrary pieces. */
module PacketDecoder {
  import opened RingRows
  import opened Segments

  const HEADER: nat := 64
  /** The sync word 0xF1F0C0DE as it stands in memory, low byte first. */
  const SYNC: seq<Byte> := [0xDE, 0xC0, 0xF0, 0xF1]

  predicate ValidHeader(h: seq<Byte>) {
    |h| == HEADER && h[..4] == SYNC
  }

  /** A header is 64 bytes that begin with the sync word, read low byte first. */
  lemma HeaderBeginsWithSyncWord(h: seq<Byte>)
    ensures ValidHeader(h) <==>
              |h| == 64
              && h[0] as int + 0x100 * h[1] as int + 0x1_0000 * h[2] as int + 0x100_0000 * h[3] as int == 0xF1F0C0DE
  {
    if |h| == 64 {
      assert h[..4] == [h[0], h[1], h[2], h[3]];
    }
  }

  /** What one more byte does to an incomplete header: the new one, and the packet fired, if any. */
  function Take(buf: seq<Byte>, b: Byte): (r: (seq<Byte>, seq<seq<Byte>>))
    requires |buf| < HEADER
    ensures |r.0| < HEADER
  {
    var full := buf + [b];
    if |full| < HEADER then (full, [])
    else if ValidHeader(full) then ([], [full])
    else (full[1..], [])
  }

  function TakeAll(buf: seq<Byte>, input: seq<Byte>): (r: (seq<Byte>, seq<seq<Byte>>))
    requires |buf| < HEADER
    ensures |r.0| < HEADER
    decreases |input|
  {
    if input == [] then (buf, [])
    else
      var (buf1, fired1) := Take(buf, input[0]);
      var (buf2, fired2) := TakeAll(buf1, input[1..]);
      (buf2, fired1 + fired2)
  }

  lemma {:induction false} TakeConcat(buf: seq<Byte>, a: seq<Byte>, b: seq<Byte>)
    requires |buf| < HEADER
    ensures var (buf1, fired1) := TakeAll(buf, a);
            var (buf2, fired2) := TakeAll(buf1, b);
            TakeAll(buf, a + b) == (buf2, fired1 + fired2)
    decreases |a|
  {
    if a == [] {
      assert a + b == b;
      var r := TakeAll(buf, b);
      assert [] + r.1 == r.1;
    } else {
      var (buf1, fired1) := Take(buf, a[0]);
      TakeConcat(buf1, a[1..], b);
      assert (a + b)[1..] == a[1..] + b;
      var (buf2, fired2) := TakeAll(buf1, a[1..]);
      assert fired1 + (fired2 + TakeAll(buf2, b).1) == fired1 + fired2 + TakeAll(buf2, b).1;
    }
  }

  /** Bytes short of a full header just accumulate. */
  lemma {:induction false} TakeShort(buf: seq<Byte>, piece: seq<Byte>)
    requires |buf| + |piece| < HEADER
    ensures TakeAll(buf, piece) == (buf + piece, [])
    decreases |piece|
  {
    if piece == [] {
      assert buf + piece == buf;
    } else {
      TakeShort(buf + [piece[0]], piece[1..]);
      var none: seq<seq<Byte>> := [];
      assert none + none == none && |buf + [piece[0]]| < HEADER;
      assert buf + [piece[0]] + piece[1..] == buf + piece;
    }
  }

  lemma TakeOne(buf: seq<Byte>, b: Byte)
    requires |buf| < HEADER
    ensures TakeAll(buf, [b]) == Take(buf, b)
  {
    var (buf1, fired1) := Take(buf, b);
    assert [b][1..] == [] && TakeAll(buf1, []) == (buf1, []);
    assert fired1 + [] == fired1;
  }

  /** A piece that completes the header fires it, or drops its first byte. */
  lemma TakeFull(buf: seq<Byte>, piece: seq<Byte>)
    requires |buf| < HEADER && |buf| + |piece| == HEADER
    ensures TakeAll(buf, piece) ==
            if ValidHeader(buf + piece) then ([], [buf + piece]) else ((buf + piece)[1..], [])
  {
    var front, last := piece[..|piece| - 1], piece[|piece| - 1];
    assert piece == front + [last];
    TakeShort(buf, front);
    TakeOne(buf + front, last);
    TakeConcat(buf, front, [last]);
    assert buf + front + [last] == buf + piece;
    var r := Take(buf + front, last);
    assert [] + r.1 == r.1;
  }

  class PacketDecoder {
    var header: array<Byte>
    var numbytes: nat
    /** The packets fired so far. */
    var fired: seq<seq<Byte>>

    ghost predicate Valid()
      reads this, header
    {
      header.Length == HEADER && numbytes < HEADER
    }

    constructor ()
      ensures Valid() && numbytes == 0 && fired == [] && fresh(header)
    {
      header := new Byte[HEADER];
      numbytes, fired := 0, [];
    }

    /** Always asks for at least one byte. */
    method GetDecoderBytes() returns (at: nat, amount: nat)
      requires Valid()
      ensures at == numbytes && amount >= 1 && at + amount == HEADER
    {
      amount := HEADER - numbytes;
      at := numbytes;
    }

    /** The caller has put `amount` bytes where it was told to. */
    method ReleaseDecoderBytes(amount: nat)
      requires Valid() && numbytes + amount <= HEADER
      modifies this, header
      ensures Valid() && header == old(header)
      ensures var (buf, more) := TakeAll(old(header[..numbytes]), old(header[numbytes..numbytes + amount]));
              header[..numbytes] == buf && fired == old(fired) + more
    {
      ghost var buf, piece := header[..numbytes], header[numbytes..numbytes + amount];
      assert buf + piece == header[..numbytes + amount];
      numbytes := numbytes + amount;
      if numbytes == HEADER {
        TakeFull(buf, piece);
        if header[0] == SYNC[0] && header[1] == SYNC[1] && header[2] == SYNC[2] && header[3] == SYNC[3] {
          assert header[..4] == SYNC;
          assert header[..HEADER] == buf + piece;
          fired := fired + [header[..HEADER]];
          numbytes := 0;
        } else {
          assert header[..4][0] == header[0] && header[..4][1] == header[1] && header[..4][2] == header[2]
            && header[..4][3] == header[3];
          numbytes := numbytes - 1;
          forall i | 0 <= i < HEADER - 1 {
            header[i] := header[i + 1];
          }
          assert header[..numbytes] == (buf + piece)[1..];
        }
      } else {
        TakeShort(buf, piece);
      }
    }

    /** Some of the bytes asked for arrive. */
    method ReceiveSome(piece: seq<Byte>)
      requires Valid() && numbytes + |piece| <= HEADER
      modifies this, header
      ensures Valid() && header == old(header)
      ensures var (buf, more) := TakeAll(old(header[..numbytes]), piece);
              header[..numbytes] == buf && fired == old(fired) + more
    {
      var at, amount := GetDecoderBytes();
      forall i | 0 <= i < |piece| {
        header[at + i] := piece[i];
      }
      assert header[..numbytes] == old(header[..numbytes]) && header[numbytes..numbytes + |piece|] == piece;
      ReleaseDecoderBytes(|piece|);
    }

    /** Read whatever arrives: each turn takes some of what is asked for. */
    method Receive(input: seq<Byte>)
      requires Valid()
      modifies this, header
      ensures Valid() && header == old(header)
      ensures var (buf, more) := TakeAll(old(header[..numbytes]), input);
              header[..numbytes] == buf && fired == old(fired) + more
    {
      ghost var buf0, fired0 := header[..numbytes], fired;
      var done := 0;
      while done < |input|
        invariant done <= |input| && Valid() && header == old(header)
        invariant TakeAll(buf0, input[..done]).0 == header[..numbytes]
        invariant fired == fired0 + TakeAll(buf0, input[..done]).1
      {
        var at, amount := GetDecoderBytes();
        var numread: nat :| 1 <= numread <= amount && done + numread <= |input|;
        ghost var buf, sofar := header[..numbytes], fired;
        var piece := input[done..done + numread];
        TakeConcat(buf0, input[..done], piece);
        assert input[..done + numread] == input[..done] + piece;
        ReceiveSome(piece);
        assert fired == sofar + TakeAll(buf, piece).1;
        done := done + numread;
      }
      assert input[..done] == input;
    }

    method Reset()
      requires Valid()
      modifies this`numbytes
      ensures Valid() && numbytes == 0
    {
      numbytes := 0;
    }
  }

  // ---- what is found, without reference to the buffer

  /** Headers found from left to right: a valid 64-byte window is taken whole, else one byte is skipped. */
  function Headers(stream: seq<Byte>): (seq<Byte>, seq<seq<Byte>>)
    decreases |stream|
  {
    if |stream| < HEADER then (stream, [])
    else if ValidHeader(stream[..HEADER]) then
      var (rest, found) := Headers(stream[HEADER..]);
      (rest, [stream[..HEADER]] + found)
    else Headers(stream[1..])
  }

  /** However the stream is cut up, the decoder fires exactly the headers that stand in it. */
  lemma {:induction false} DecoderFindsHeaders(stream: seq<Byte>)
    ensures TakeAll([], stream) == Headers(stream)
    decreases |stream|
  {
    if |stream| < HEADER {
      TakeShort([], stream);
      assert [] + stream == stream;
    } else {
      var first, rest := stream[..HEADER], stream[HEADER..];
      assert stream == first + rest && [] + first == first;
      TakeFull([], first);
      TakeConcat([], first, rest);
      if ValidHeader(first) {
        DecoderFindsHeaders(rest);
      } else {
        DecoderFindsHeaders(stream[1..]);
        TakeShort([], first[1..]);
        assert [] + first[1..] == first[1..];
        TakeConcat([], first[1..], rest);
        assert stream[1..] == first[1..] + rest;
      }
    }
  }

  /** A stream of valid headers comes out as it went in. */
  lemma {:induction false} HeadersOfHeaders(packets: seq<seq<Byte>>)
    requires forall i | 0 <= i < |packets| :: ValidHeader(packets[i])
    ensures Headers(Flatten(packets)) == ([], packets)
    decreases |packets|
  {
    if packets != [] {
      var s := Flatten(packets);
      HeadersOfHeaders(packets[1..]);
      assert s[..HEADER] == packets[0] && s[HEADER..] == Flatten(packets[1..]);
      assert [packets[0]] + packets[1..] == packets;
    }
  }

  predicate HeaderAt(stream: seq<Byte>, i: nat) {
    i + HEADER <= |stream| && ValidHeader(stream[i..i + HEADER])
  }

  /** Junk in front is skipped when no valid window starts inside it. */
  lemma {:induction false} Resynchronises(junk: seq<Byte>, packets: seq<seq<Byte>>)
    requires packets != [] && forall i | 0 <= i < |packets| :: ValidHeader(packets[i])
    requires forall i | 0 <= i < |junk| :: !HeaderAt(junk + Flatten(packets), i)
    ensures Headers(junk + Flatten(packets)) == ([], packets)
    decreases |junk|
  {
    var s := Flatten(packets);
    if junk == [] {
      assert junk + s == s;
      HeadersOfHeaders(packets);
    } else {
      assert (junk + s)[1..] == junk[1..] + s;
      assert !HeaderAt(junk + s, 0) && (junk + s)[0..HEADER] == (junk + s)[..HEADER];
      forall i | 0 <= i < |junk[1..]|
        ensures !HeaderAt(junk[1..] + s, i)
      {
        assert !HeaderAt(junk + s, i + 1);
        assert (junk[1..] + s)[i..i + HEADER] == (junk + s)[i + 1..i + 1 + HEADER];
      }
      Resynchronises(junk[1..], packets);
    }
  }
}

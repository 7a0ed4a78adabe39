/**
 * Both halves of a remote queue and the two byte streams between them. Each stream is kept
 * as the log of everything ever sent on it and the number of packets already received, so
 * the packets in flight are the rest of the log.
 */
module RemoteSystem {
  import opened Helpers
  import opened RemoteHalf

  datatype Sys = Sys(
    c: Config,
    w: Half, r: Half,
    wLog: seq<Packet>, rRead: nat,   // writer to reader
    rLog: seq<Packet>, wRead: nat,   // reader to writer
    enqueued: seq<Column>, dequeued: seq<Column>,
    wMark: nat, rMark: nat)          // packets a side had sent when its current wait began

  function HalfAt(s: Sys, side: Mode): Half {
    if side.Writer? then s.w else s.r
  }

  function LogAt(s: Sys, side: Mode): seq<Packet> {
    if side.Writer? then s.wLog else s.rLog
  }

  datatype Step =
    | CallAt(side: Mode, call: Call)
    | SendAt(side: Mode, kind: Send)
    | ReceiveAt(side: Mode)

  ghost predicate Initial(s: Sys, length: nat, maxThresh: nat) {
    && s.c.Valid()
    && s.w == Fresh(s.c, Writer, length, maxThresh) && s.r == Fresh(s.c, Reader, length, maxThresh)
    && s.wLog == [] && s.rLog == [] && s.rRead == 0 && s.wRead == 0
    && s.enqueued == [] && s.dequeued == []
    && s.wMark == 0 && s.rMark == 0
  }

  /** Nothing a live half receives trips an assertion or underflows. */
  predicate Acceptable(h: Half, p: Packet) {
    Expected(h, p) && (p.body.Dequeue? ==> p.body.count <= h.bytecount)
  }

  /** Packets taken one after the other: none trips an assertion. */
  predicate AcceptAll(c: Config, h: Half, ps: seq<Packet>)
    requires c.Valid()
    decreases |ps|
  {
    ps == [] || (Acceptable(h, ps[0]) && AcceptAll(c, AfterReceive(c, h, ps[0]), ps[1..]))
  }

  function AfterReceiveAll(c: Config, h: Half, ps: seq<Packet>): Half
    requires c.Valid() && AcceptAll(c, h, ps)
    decreases |ps|
  {
    if ps == [] then h else AfterReceiveAll(c, AfterReceive(c, h, ps[0]), ps[1..])
  }

  ghost predicate Enabled(s: Sys, e: Step) {
    && s.c.Valid()
    && match e
       case CallAt(Writer, a) => CanCall(s.w, a)
       case CallAt(Reader, a) => CanCall(s.r, a)
       case SendAt(Writer, k) => CanSend(s.w, k)
       case SendAt(Reader, k) => CanSend(s.r, k)
       case ReceiveAt(Writer) => !s.w.end.dead && s.wRead < |s.rLog|
       case ReceiveAt(Reader) => !s.r.end.dead && s.rRead < |s.wLog|
  }

  /** The packet a receive step takes off the wire passes the handler's assertions. */
  ghost predicate Safe(s: Sys, e: Step)
    requires Enabled(s, e)
  {
    match e
    case ReceiveAt(Writer) => Acceptable(s.w, s.rLog[s.wRead])
    case ReceiveAt(Reader) => Acceptable(s.r, s.wLog[s.rRead])
    case _ => true
  }

  function Apply(s: Sys, e: Step): Sys
    requires Enabled(s, e) && Safe(s, e)
  {
    match e
    case CallAt(Writer, a) =>
      s.(w := AfterCall(s.c, s.w, a),
         enqueued := if a.Put? then s.enqueued + a.data else s.enqueued,
         wMark := if a.BeginWait? then |s.wLog| else s.wMark)
    case CallAt(Reader, a) =>
      s.(r := AfterCall(s.c, s.r, a),
         dequeued := if a.Take? then s.dequeued + s.r.q.buf[..a.n] else s.dequeued,
         rMark := if a.BeginWait? then |s.rLog| else s.rMark)
    case SendAt(Writer, k) =>
      s.(w := AfterSend(s.c, s.w, k), wLog := s.wLog + Output(s.c, s.w, k))
    case SendAt(Reader, k) =>
      s.(r := AfterSend(s.c, s.r, k), rLog := s.rLog + Output(s.c, s.r, k))
    case ReceiveAt(Writer) =>
      s.(w := AfterReceive(s.c, s.w, s.rLog[s.wRead]), wRead := s.wRead + 1)
    case ReceiveAt(Reader) =>
      s.(r := AfterReceive(s.c, s.r, s.wLog[s.rRead]), rRead := s.rRead + 1)
  }

  // ---- what a log carries

  function Payload(p: Packet): seq<Column> {
    if p.body.Enqueue? then p.body.data else []
  }

  function Data(ps: seq<Packet>): seq<Column> {
    if ps == [] then [] else Payload(ps[0]) + Data(ps[1..])
  }

  function Credit(p: Packet): nat {
    if p.body.Dequeue? then p.body.count else 0
  }

  function Credits(ps: seq<Packet>): nat {
    if ps == [] then 0 else Credit(ps[0]) + Credits(ps[1..])
  }

  lemma {:induction false} DataConcat(a: seq<Packet>, b: seq<Packet>)
    ensures Data(a + b) == Data(a) + Data(b)
  {
    if a == [] {
      assert a + b == b;
    } else {
      DataConcat(a[1..], b);
      assert (a + b)[0] == a[0] && (a + b)[1..] == a[1..] + b;
      Assoc(Payload(a[0]), Data(a[1..]), Data(b));
    }
  }

  lemma {:induction false} CreditsConcat(a: seq<Packet>, b: seq<Packet>)
    ensures Credits(a + b) == Credits(a) + Credits(b)
  {
    if a == [] {
      assert a + b == b;
    } else {
      CreditsConcat(a[1..], b);
      assert (a + b)[1..] == a[1..] + b;
    }
  }

  lemma Single(p: Packet)
    ensures Data([p]) == Payload(p) && Credits([p]) == Credit(p)
  {
    assert [p][1..] == [];
  }

  lemma LogGrows(ps: seq<Packet>, p: Packet)
    ensures Data(ps + [p]) == Data(ps) + Payload(p)
    ensures Credits(ps + [p]) == Credits(ps) + Credit(p)
  {
    DataConcat(ps, [p]);
    CreditsConcat(ps, [p]);
    Single(p);
  }

  lemma PrefixGrows(ps: seq<Packet>, n: nat)
    requires n < |ps|
    ensures Data(ps[..n + 1]) == Data(ps[..n]) + Payload(ps[n])
    ensures Credits(ps[..n + 1]) == Credits(ps[..n]) + Credit(ps[n])
  {
    assert ps[..n + 1] == ps[..n] + [ps[n]];
    LogGrows(ps[..n], ps[n]);
  }

  lemma LogSplits(ps: seq<Packet>, n: nat)
    requires n <= |ps|
    ensures Data(ps) == Data(ps[..n]) + Data(ps[n..])
    ensures Credits(ps) == Credits(ps[..n]) + Credits(ps[n..])
  {
    DataConcat(ps[..n], ps[n..]);
    CreditsConcat(ps[..n], ps[n..]);
    assert ps[..n] + ps[n..] == ps;
  }

  // ---- the invariant, in four independent parts

  ghost predicate Shape(s: Sys) {
    && s.c.Valid()
    && s.w.mode.Writer? && s.r.mode.Reader?
    && s.rRead <= |s.wLog| && s.wRead <= |s.rLog|
    && |s.w.q.buf| <= s.w.q.length && |s.r.q.buf| <= s.r.q.length
    && s.w.q.maxThresh >= 1
  }

  /** Every column enqueued is, in order, dequeued, in the reader, in flight or in the writer. */
  ghost predicate Fifo(s: Sys)
    requires s.rRead <= |s.wLog|
  {
    && s.enqueued == Data(s.wLog) + s.w.q.buf
    && Data(s.wLog[..s.rRead]) == s.dequeued + s.r.q.buf
  }

  /** What the two byte counts stand for. */
  ghost predicate Counts(s: Sys)
    requires s.rRead <= |s.wLog| && s.wRead <= |s.rLog|
  {
    && s.w.bytecount + Credits(s.rLog[..s.wRead]) == |Data(s.wLog)|
    && s.r.bytecount + Credits(s.rLog) == |Data(s.wLog[..s.rRead])|
    && |s.r.q.buf| <= s.r.bytecount
  }

  ghost predicate EndsLast(log: seq<Packet>, end: Body, sent: bool) {
    && (forall k | 0 <= k < |log| :: log[k].IsEnd() ==> k == |log| - 1 && log[k].body == end)
    && (sent <==> log != [] && log[|log| - 1].IsEnd())
  }

  /** The two-way close. */
  ghost predicate Closing(s: Sys) {
    && EndsLast(s.wLog, EndOfWrite, s.w.end.sentEnd) && EndsLast(s.rLog, EndOfRead, s.r.end.sentEnd)
    && (s.r.end.writeshutdown <==> s.w.end.sentEnd && s.rRead == |s.wLog|)
    && (s.w.end.readshutdown <==> s.r.end.sentEnd && s.wRead == |s.rLog|)
    && (s.w.end.dead ==> s.w.end.sentEnd && s.w.end.readshutdown)
    && (s.r.end.dead ==> s.r.end.sentEnd && s.r.end.writeshutdown)
    && (s.r.end.sentEnd ==> s.r.end.readshutdown || s.r.end.writeshutdown)
    && (s.w.end.sentEnd ==> (s.w.q.buf == [] && s.w.end.writeshutdown) || s.r.end.readshutdown)
    && (forall k | 0 <= k < |s.wLog| :: s.wLog[k].body.Enqueue? || s.wLog[k].body.WriteBlock?
                                        || s.wLog[k].body.EndOfWrite? || s.wLog[k].body.Grow? || s.wLog[k].body.D4RTag?)
    && (forall k | 0 <= k < |s.rLog| :: s.rLog[k].body.Dequeue? || s.rLog[k].body.ReadBlock?
                                        || s.rLog[k].body.EndOfRead? || s.rLog[k].body.Grow? || s.rLog[k].body.D4RTag?)
  }

  /** `a`'s own stamps rise along its log, and `b` has heard exactly what it received. */
  ghost predicate Stamps(a: Half, aLog: seq<Packet>, b: Half, bRead: nat) {
    && bRead <= |aLog|
    && (forall i, j | 0 <= i < j < |aLog| :: aLog[i].Stamp(a.mode) < aLog[j].Stamp(a.mode))
    && (forall i | 0 <= i < |aLog| :: 0 < aLog[i].Stamp(a.mode) <= a.clk.own)
    && b.Heard() == (if bRead == 0 then 0 else aLog[bRead - 1].Stamp(a.mode))
    && (forall i | 0 <= i < |aLog| :: aLog[i].Known(a.mode) <= a.Heard())
    && b.Echoed() <= a.Heard()
  }

  /** A waiting side's saved clock separates the packets sent before the wait from those after. */
  ghost predicate WaitMark(a: Half, aLog: seq<Packet>, mark: nat) {
    a.wait.Waiting? ==>
      && mark <= |aLog|
      && 0 < a.wait.saveclock <= a.clk.own + 1
      && (forall i | 0 <= i < mark :: aLog[i].Stamp(a.mode) < a.wait.saveclock)
      && (forall i | mark <= i < |aLog| :: a.wait.saveclock <= aLog[i].Stamp(a.mode))
  }

  ghost predicate Clocks(s: Sys) {
    && Stamps(s.w, s.wLog, s.r, s.rRead) && Stamps(s.r, s.rLog, s.w, s.wRead)
    && WaitMark(s.w, s.wLog, s.wMark) && WaitMark(s.r, s.rLog, s.rMark)
  }

  ghost predicate Core(s: Sys) {
    Shape(s) && Fifo(s) && Counts(s) && Closing(s)
  }

  ghost predicate Inv(s: Sys) {
    Core(s) && Clocks(s)
  }

  lemma InitInv(s: Sys, length: nat, maxThresh: nat)
    requires Initial(s, length, maxThresh)
    ensures Inv(s)
  {
    var w, r := Fresh(s.c, Writer, length, maxThresh), Fresh(s.c, Reader, length, maxThresh);
    assert w.q.maxThresh >= 1 && w.q.buf == r.q.buf == [] && w.bytecount == r.bytecount == 0;
    assert s.wLog[..0] == [] && s.rLog[..0] == [];
    assert Shape(s) && Fifo(s) && Counts(s) && Closing(s);
    InitClocks(s, w, r);
  }

  lemma InitClocks(s: Sys, w: Half, r: Half)
    requires s.w == w && s.r == r && s.wLog == s.rLog == [] && s.rRead == s.wRead == 0
    requires w.clk == r.clk == Clock(0, 0, 0) && w.wait == r.wait == Idle
    ensures Clocks(s)
  {
  }

  lemma CreditsInFlight(s: Sys)
    requires Shape(s) && Counts(s)
    ensures s.w.bytecount == s.r.bytecount + |Data(s.wLog[s.rRead..])| + Credits(s.rLog[s.wRead..])
  {
    LogSplits(s.rLog, s.wRead);
    LogSplits(s.wLog, s.rRead);
  }

  /** No handler assertion can fail and no byte count can underflow. */
  lemma EveryReceiveIsSafe(s: Sys, e: Step)
    requires Shape(s) && Counts(s) && Closing(s) && Enabled(s, e)
    ensures Safe(s, e)
  {
    if e == ReceiveAt(Writer) {
      CreditsInFlight(s);
      assert s.rLog[s.wRead..][0] == s.rLog[s.wRead];
    }
  }

  // ---- preservation, step by step

  lemma WriterCallKeeps(s: Sys, a: Call)
    requires Core(s) && CanCall(s.w, a)
    ensures Core(Apply(s, CallAt(Writer, a)))
  {
    var h := AfterCall(s.c, s.w, a);
    assert |h.q.buf| <= h.q.length && h.q.maxThresh >= 1 && h.mode == s.w.mode;
    assert h.q.buf == if a.Put? then s.w.q.buf + a.data else s.w.q.buf;
    assert a.Put? ==> s.enqueued + a.data == Data(s.wLog) + (s.w.q.buf + a.data);
  }

  lemma ReaderCallKeeps(s: Sys, a: Call)
    requires Core(s) && CanCall(s.r, a)
    ensures Core(Apply(s, CallAt(Reader, a)))
  {
    var h := AfterCall(s.c, s.r, a);
    assert |h.q.buf| <= h.q.length && |h.q.buf| <= |s.r.q.buf| && h.mode == s.r.mode;
    assert h.q.buf == if a.Take? then s.r.q.buf[a.n..] else s.r.q.buf;
    assert a.Take? ==> s.dequeued + s.r.q.buf == s.dequeued + s.r.q.buf[..a.n] + s.r.q.buf[a.n..];
  }

  /** An enqueue packet carries off the front of the buffer. */
  lemma EnqueueOutput(c: Config, h: Half)
    requires CanSend(h, SendEnqueue)
    ensures var t, out := AfterSend(c, h, SendEnqueue), Output(c, h, SendEnqueue);
            h.q.buf == Data(out) + t.q.buf && t.bytecount == h.bytecount + |Data(out)|
  {
    var n, out := EnqueueCount(c, h), Output(c, h, SendEnqueue);
    assert h.q.buf == h.q.buf[..n] + h.q.buf[n..];
    if n > 0 {
      assert out == [Stamped(h, Enqueue(h.q.buf[..n]))];
      Single(out[0]);
    } else {
      assert out == [] && h.q.buf[..n] == [];
    }
  }

  /** Nothing else a writer sends touches its buffer or its count. */
  lemma OtherOutput(c: Config, h: Half, k: Send)
    requires CanSend(h, k) && h.mode.Writer? && !k.SendEnqueue?
    ensures var t, out := AfterSend(c, h, k), Output(c, h, k);
            Data(out) == [] && t.q.buf == h.q.buf && t.bytecount == h.bytecount
  {
    if Emits(c, h, k) {
      Single(Output(c, h, k)[0]);
    }
  }

  lemma WriterSendFacts(s: Sys, k: Send) returns (h: Half, out: seq<Packet>)
    requires CanSend(s.w, k) && s.w.mode.Writer? && s.rRead <= |s.wLog|
    ensures h == AfterSend(s.c, s.w, k) && out == Output(s.c, s.w, k)
    ensures s.w.q.buf == Data(out) + h.q.buf
    ensures h.bytecount == s.w.bytecount + |Data(out)|
    ensures (s.wLog + out)[..s.rRead] == s.wLog[..s.rRead]
    ensures Data(s.wLog + out) == Data(s.wLog) + Data(out)
  {
    h, out := AfterSend(s.c, s.w, k), Output(s.c, s.w, k);
    DataConcat(s.wLog, out);
    if k.SendEnqueue? {
      EnqueueOutput(s.c, s.w);
    } else {
      OtherOutput(s.c, s.w, k);
      assert Data(out) + h.q.buf == h.q.buf;
    }
  }

  lemma WriterSendRelation(s: Sys, h: Half, out: seq<Packet>)
    requires Shape(s) && Fifo(s) && Counts(s)
    requires h.q.length == s.w.q.length && h.q.maxThresh == s.w.q.maxThresh && h.mode == s.w.mode
    requires s.w.q.buf == Data(out) + h.q.buf && h.bytecount == s.w.bytecount + |Data(out)|
    requires (s.wLog + out)[..s.rRead] == s.wLog[..s.rRead]
    requires Data(s.wLog + out) == Data(s.wLog) + Data(out)
    ensures var s' := s.(w := h, wLog := s.wLog + out); Shape(s') && Fifo(s') && Counts(s')
  {
    Assoc(Data(s.wLog), Data(out), h.q.buf);
  }

  lemma WriterSendKeeps(s: Sys, k: Send)
    requires Core(s) && CanSend(s.w, k)
    ensures Core(Apply(s, SendAt(Writer, k)))
  {
    var h, out := WriterSendFacts(s, k);
    assert h.q.length == s.w.q.length && h.q.maxThresh == s.w.q.maxThresh && h.mode == s.w.mode;
    WriterSendRelation(s, h, out);
    WriterSendKeepsClosing(s, k);
  }

  lemma WriterSendKeepsClosing(s: Sys, k: Send)
    requires Shape(s) && Closing(s) && CanSend(s.w, k)
    ensures Closing(Apply(s, SendAt(Writer, k)))
  {
    var h, out := AfterSend(s.c, s.w, k), Output(s.c, s.w, k);
    assert h.end.sentEnd == (s.w.end.sentEnd || k.SendEnd?);
    assert h.end.readshutdown == s.w.end.readshutdown && h.end.writeshutdown == s.w.end.writeshutdown;
    assert h.end.dead == (s.w.end.dead || k.Close?) && h.mode == s.w.mode;
    assert |out| <= 1;
  }

  lemma ReaderSendFacts(s: Sys, k: Send) returns (h: Half, out: seq<Packet>)
    requires Core(s) && CanSend(s.r, k)
    ensures h == AfterSend(s.c, s.r, k) && out == Output(s.c, s.r, k)
    ensures h.q.length == s.r.q.length && h.q.buf == s.r.q.buf && h.mode == s.r.mode
    ensures s.r.bytecount == h.bytecount + Credits(out) && |h.q.buf| <= h.bytecount
    ensures Credits(s.rLog + out) == Credits(s.rLog) + Credits(out)
    ensures (s.rLog + out)[..s.wRead] == s.rLog[..s.wRead]
  {
    h, out := AfterSend(s.c, s.r, k), Output(s.c, s.r, k);
    CreditsConcat(s.rLog, out);
    if Emits(s.c, s.r, k) {
      Single(out[0]);
    }
  }

  lemma ReaderSendRelation(s: Sys, h: Half, out: seq<Packet>)
    requires Shape(s) && Fifo(s) && Counts(s)
    requires h.q.length == s.r.q.length && h.q.buf == s.r.q.buf && h.mode == s.r.mode
    requires s.r.bytecount == h.bytecount + Credits(out) && |h.q.buf| <= h.bytecount
    requires Credits(s.rLog + out) == Credits(s.rLog) + Credits(out)
    requires (s.rLog + out)[..s.wRead] == s.rLog[..s.wRead]
    ensures var s' := s.(r := h, rLog := s.rLog + out); Shape(s') && Fifo(s') && Counts(s')
  {
  }

  lemma ReaderSendKeeps(s: Sys, k: Send)
    requires Core(s) && CanSend(s.r, k)
    ensures Core(Apply(s, SendAt(Reader, k)))
  {
    var h, out := ReaderSendFacts(s, k);
    ReaderSendRelation(s, h, out);
    ReaderSendKeepsClosing(s, k);
  }

  lemma ReaderSendKeepsClosing(s: Sys, k: Send)
    requires Shape(s) && Closing(s) && CanSend(s.r, k)
    ensures Closing(Apply(s, SendAt(Reader, k)))
  {
    var h, out := AfterSend(s.c, s.r, k), Output(s.c, s.r, k);
    assert h.end.sentEnd == (s.r.end.sentEnd || k.SendEnd?);
    assert h.end.readshutdown == s.r.end.readshutdown && h.end.writeshutdown == s.r.end.writeshutdown;
    assert h.end.dead == (s.r.end.dead || k.Close?) && h.mode == s.r.mode;
    assert |out| <= 1;
  }

  /** What receiving does to a half's buffer and byte count. */
  lemma ReceiveStore(c: Config, h: Half, p: Packet)
    requires c.Valid() && Acceptable(h, p) && |h.q.buf| <= h.q.length
    ensures var t := AfterReceive(c, h, p);
            && t.mode == h.mode && |t.q.buf| <= t.q.length && t.q.maxThresh >= h.q.maxThresh
            && t.q.buf == h.q.buf + Payload(p)
            && t.bytecount == h.bytecount + |Payload(p)| - Credit(p)
  {
    var t := AfterReceive(c, h, p);
    if p.body.Enqueue? {
      assert |h.q.buf + p.body.data| <= t.q.length;
    } else {
      assert t.q.buf == h.q.buf;
      assert h.q.buf + [] == h.q.buf;
    }
  }

  /** What receiving does to the flags of the close. */
  lemma ReceiveFlags(c: Config, h: Half, p: Packet)
    requires c.Valid() && Acceptable(h, p)
    ensures var t := AfterReceive(c, h, p);
            && t.end.sentEnd == h.end.sentEnd && t.end.dead == h.end.dead
            && t.end.readshutdown == (h.end.readshutdown || p.body.EndOfRead?)
            && t.end.writeshutdown == (h.end.writeshutdown || p.body.EndOfWrite?)
  {
  }

  lemma WriterReceiveRelation(s: Sys, h: Half, p: Packet)
    requires Core(s) && !s.w.end.dead && s.wRead < |s.rLog| && p == s.rLog[s.wRead]
    requires h.mode == s.w.mode && h.q.buf == s.w.q.buf && |h.q.buf| <= h.q.length && h.q.maxThresh >= 1
    requires h.bytecount == s.w.bytecount - Credit(p)
    requires h.end.readshutdown == (s.w.end.readshutdown || p.body.EndOfRead?)
    requires h.end.sentEnd == s.w.end.sentEnd && h.end.writeshutdown == s.w.end.writeshutdown
         && h.end.dead == s.w.end.dead
    ensures Core(s.(w := h, wRead := s.wRead + 1))
  {
    PrefixGrows(s.rLog, s.wRead);
  }

  lemma ReaderReceiveRelation(s: Sys, h: Half, p: Packet)
    requires Core(s) && !s.r.end.dead && s.rRead < |s.wLog| && p == s.wLog[s.rRead]
    requires h.mode == s.r.mode && h.q.buf == s.r.q.buf + Payload(p) && |h.q.buf| <= h.q.length
    requires h.bytecount == s.r.bytecount + |Payload(p)|
    requires h.end.writeshutdown == (s.r.end.writeshutdown || p.body.EndOfWrite?)
    requires h.end.sentEnd == s.r.end.sentEnd && h.end.readshutdown == s.r.end.readshutdown
         && h.end.dead == s.r.end.dead
    ensures Core(s.(r := h, rRead := s.rRead + 1))
  {
    PrefixGrows(s.wLog, s.rRead);
    assert s.dequeued + s.r.q.buf + Payload(p) == s.dequeued + (s.r.q.buf + Payload(p));
  }

  lemma ReceiveKeeps(s: Sys, side: Mode)
    requires Core(s) && Enabled(s, ReceiveAt(side))
    ensures Safe(s, ReceiveAt(side)) && Core(Apply(s, ReceiveAt(side)))
  {
    EveryReceiveIsSafe(s, ReceiveAt(side));
    match side
    case Writer =>
      var p := s.rLog[s.wRead];
      ReceiveStore(s.c, s.w, p);
      ReceiveFlags(s.c, s.w, p);
      assert Payload(p) == [] && !p.body.EndOfWrite?;
      WriterReceiveRelation(s, AfterReceive(s.c, s.w, p), p);
    case Reader =>
      var p := s.wLog[s.rRead];
      ReceiveStore(s.c, s.r, p);
      ReceiveFlags(s.c, s.r, p);
      assert Credit(p) == 0 && !p.body.EndOfRead?;
      ReaderReceiveRelation(s, AfterReceive(s.c, s.r, p), p);
  }

  // ---- clocks

  /** A send stamps the next clock value and repeats what was last heard. */
  lemma StampsAfterSend(a: Half, aLog: seq<Packet>, b: Half, bRead: nat, a': Half, out: seq<Packet>, mark: nat)
    requires Stamps(a, aLog, b, bRead) && WaitMark(a, aLog, mark)
    requires a'.mode == a.mode && a'.wait == a.wait && a'.Heard() == a.Heard() && a'.clk.own >= a.clk.own
    requires out != [] ==> |out| == 1 && out[0].Stamp(a.mode) == a'.clk.own == a.clk.own + 1
                           && out[0].Known(a.mode) == a.Heard()
    ensures Stamps(a', aLog + out, b, bRead) && WaitMark(a', aLog + out, mark)
  {
    var log := aLog + out;
    forall i | 0 <= i < |log| ensures log[i] == if i < |aLog| then aLog[i] else out[0] {
    }
  }

  lemma SendClock(c: Config, h: Half, k: Send)
    requires CanSend(h, k)
    ensures var t, out := AfterSend(c, h, k), Output(c, h, k);
            && t.mode == h.mode && t.wait == h.wait && t.clk.read == h.clk.read && t.clk.write == h.clk.write
            && (if out == [] then t.clk.own == h.clk.own
                else |out| == 1 && out[0].Stamp(h.mode) == t.clk.own == h.clk.own + 1
                     && out[0].Known(h.mode) == h.Heard())
  {
  }

  /** Receiving moves b's knowledge to the packet's stamps and its clock past both. */
  lemma StampsAfterReceive(a: Half, aLog: seq<Packet>, b: Half, bRead: nat, b': Half,
                           bLog: seq<Packet>, aRead: nat, mark: nat)
    requires Stamps(a, aLog, b, bRead) && bRead < |aLog| && a.mode != b.mode
    requires Stamps(b, bLog, a, aRead) && WaitMark(b, bLog, mark)
    requires b'.mode == b.mode && b'.wait == b.wait && b'.clk.own > b.clk.own
    requires b'.Heard() == aLog[bRead].Stamp(a.mode) && b'.Echoed() == aLog[bRead].Known(a.mode)
    ensures Stamps(a, aLog, b', bRead + 1)
    ensures Stamps(b', bLog, a, aRead) && WaitMark(b', bLog, mark)
  {
    assert b'.Heard() >= b.Heard();
  }

  lemma ReceiveClock(c: Config, h: Half, p: Packet, sender: Mode)
    requires c.Valid() && Acceptable(h, p) && sender != h.mode
    ensures var t := AfterReceive(c, h, p);
            && t.mode == h.mode && t.wait == h.wait && t.clk.own > h.clk.own && t.clk.own > p.Stamp(sender)
            && t.Heard() == p.Stamp(sender) && t.Echoed() == p.Known(sender)
  {
  }

  lemma CallClock(c: Config, h: Half, a: Call)
    requires c.Valid() && CanCall(h, a)
    ensures var t := AfterCall(c, h, a);
            && t.mode == h.mode && t.clk == h.clk
            && t.wait == (if a.BeginWait? then Waiting(h.clk.own + 1) else if a.EndWait? then Idle else h.wait)
  {
  }

  lemma CallKeepsClocks(s: Sys, side: Mode, a: Call)
    requires Shape(s) && Clocks(s) && Enabled(s, CallAt(side, a))
    ensures Clocks(Apply(s, CallAt(side, a)))
  {
    match side
    case Writer => CallClock(s.c, s.w, a);
    case Reader => CallClock(s.c, s.r, a);
  }

  lemma SendKeepsClocks(s: Sys, side: Mode, k: Send)
    requires Shape(s) && Clocks(s) && Enabled(s, SendAt(side, k))
    ensures Clocks(Apply(s, SendAt(side, k)))
  {
    match side
    case Writer =>
      SendClock(s.c, s.w, k);
      StampsAfterSend(s.w, s.wLog, s.r, s.rRead, AfterSend(s.c, s.w, k), Output(s.c, s.w, k), s.wMark);
    case Reader =>
      SendClock(s.c, s.r, k);
      StampsAfterSend(s.r, s.rLog, s.w, s.wRead, AfterSend(s.c, s.r, k), Output(s.c, s.r, k), s.rMark);
  }

  lemma ReceiveKeepsClocks(s: Sys, side: Mode)
    requires Shape(s) && Clocks(s) && Enabled(s, ReceiveAt(side)) && Safe(s, ReceiveAt(side))
    ensures Clocks(Apply(s, ReceiveAt(side)))
  {
    match side
    case Writer =>
      var p := s.rLog[s.wRead];
      ReceiveClock(s.c, s.w, p, Reader);
      StampsAfterReceive(s.r, s.rLog, s.w, s.wRead, AfterReceive(s.c, s.w, p), s.wLog, s.rRead, s.wMark);
    case Reader =>
      var p := s.wLog[s.rRead];
      ReceiveClock(s.c, s.r, p, Writer);
      StampsAfterReceive(s.w, s.wLog, s.r, s.rRead, AfterReceive(s.c, s.r, p), s.rLog, s.wRead, s.rMark);
  }

  /** Every step, of either side, keeps the invariant and trips no assertion. */
  lemma InvKept(s: Sys, e: Step)
    requires Inv(s) && Enabled(s, e)
    ensures Safe(s, e) && Inv(Apply(s, e))
  {
    match e
    case CallAt(side, a) =>
      CallKeepsClocks(s, side, a);
      match side {
        case Writer => WriterCallKeeps(s, a);
        case Reader => ReaderCallKeeps(s, a);
      }
    case SendAt(side, k) =>
      SendKeepsClocks(s, side, k);
      match side {
        case Writer => WriterSendKeeps(s, k);
        case Reader => ReaderSendKeeps(s, k);
      }
    case ReceiveAt(side) =>
      ReceiveKeeps(s, side);
      ReceiveKeepsClocks(s, side);
  }
}

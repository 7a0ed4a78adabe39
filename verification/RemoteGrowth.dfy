/** Growing a remote queue from one of its sides: when the two halves agree on the new lengths. */
module RemoteGrowth {
  import opened Helpers
  import opened RemoteHalf
  import opened RemoteSystem
  import opened RemoteTheorems

  function Other(side: Mode): Mode {
    if side.Writer? then Reader else Writer
  }

  /** How much of a side's log its peer has handled. */
  function HandledOf(s: Sys, side: Mode): nat {
    if side.Writer? then s.rRead else s.wRead
  }

  ghost predicate OneSided(es: seq<Step>, side: Mode) {
    forall k | 0 <= k < |es| && Resizes(es[k]) :: es[k].side == side
  }

  /** The threshold a packet asks its receiver for. */
  function Weight(p: Packet): nat {
    if p.body.Grow? then p.body.maxThresh else |Payload(p)|
  }

  /** The last Grow message on a log. */
  function LastGrow(log: seq<Packet>): (b: Option<Body>)
    ensures b.Some? ==> b.value.Grow?
    ensures b.None? <==> forall k | 0 <= k < |log| :: !log[k].body.Grow?
  {
    if log == [] then None
    else if log[|log| - 1].body.Grow? then Some(log[|log| - 1].body)
    else LastGrow(log[..|log| - 1])
  }

  lemma LastGrowOneMore(log: seq<Packet>, p: Packet)
    ensures LastGrow(log + [p]) == if p.body.Grow? then Some(p.body) else LastGrow(log)
  {
    assert (log + [p])[..|log|] == log;
  }

  /** Without a Grow message in its second part, a log's last one is in its first. */
  lemma {:induction false} LastGrowOfPrefix(log: seq<Packet>, n: nat)
    requires n <= |log| && forall k | n <= k < |log| :: !log[k].body.Grow?
    ensures LastGrow(log[..n]) == LastGrow(log)
    decreases |log| - n
  {
    if n < |log| {
      assert log[..n + 1] == log[..n] + [log[n]];
      LastGrowOneMore(log[..n], log[n]);
      LastGrowOfPrefix(log, n + 1);
    } else {
      assert log[..n] == log;
    }
  }

  /** Lengths held above the threshold are the parts of their total. */
  predicate Balanced(c: Config, h: Half) {
    h.shares.writer > h.q.maxThresh && h.shares.reader > h.q.maxThresh ==>
      c.share(h.shares.reader + h.shares.writer) == h.shares.writer
  }

  predicate Floored(h: Half) {
    h.shares.reader >= h.q.maxThresh && h.shares.writer >= h.q.maxThresh
  }

  /** Nothing on the log asks for more than `maxThresh`, nor for more than a later Grow message. */
  ghost predicate Weighed(log: seq<Packet>, maxThresh: nat) {
    && (forall k | 0 <= k < |log| :: Weight(log[k]) <= maxThresh)
    && (forall k, l | 0 <= k < l < |log| && log[l].body.Grow? :: Weight(log[k]) <= log[l].body.maxThresh)
  }

  /** The lengths and threshold every half starts with. */
  datatype Start = Start(shares: Shares, maxThresh: nat)

  /** The growing half has nothing unsaid: its last Grow message holds its lengths and threshold. */
  ghost predicate Said(a: Half, g: Option<Body>, start: Start) {
    match g
    case None => a.shares == start.shares && a.q.maxThresh == start.maxThresh
    case Some(body) => body == Grow(a.shares.reader + a.shares.writer, a.q.maxThresh) && Floored(a)
  }

  /** The other half holds what the last message it has handled leads to. */
  ghost predicate Heard(c: Config, b: Half, g: Option<Body>, start: Start)
    requires c.Valid() && (g.Some? ==> g.value.Grow?)
  {
    match g
    case None => b.shares == start.shares && b.q.maxThresh >= start.maxThresh
    case Some(body) =>
      && b.q.maxThresh >= body.maxThresh
      && b.shares == Shares(QueueLength(c, body.queueSize, body.maxThresh, Reader),
                            QueueLength(c, body.queueSize, body.maxThresh, Writer))
  }

  /** Half `a` grows and tells `b`, which has handled `n` packets of its log. */
  ghost predicate Announced(c: Config, a: Half, aLog: seq<Packet>, b: Half, bLog: seq<Packet>, n: nat, start: Start) {
    && c.Valid() && n <= |aLog| && a.mode != b.mode
    && !b.todo.grow && b.q.maxThresh <= a.q.maxThresh
    && (forall k | 0 <= k < |bLog| :: !bLog[k].body.Grow? && Weight(bLog[k]) <= a.q.maxThresh)
    && Weighed(aLog, a.q.maxThresh)
    && (forall k | n <= k < |aLog| && aLog[k].body.Grow? :: b.q.maxThresh <= aLog[k].body.maxThresh)
    && Balanced(c, a)
    && (if a.todo.grow then Floored(a) else Said(a, LastGrow(aLog), start))
    && Heard(c, b, LastGrow(aLog[..n]), start)
  }

  // ---- what the steps do to lengths and thresholds

  /** Calls other than a resize, and sends other than a Grow message, leave the lengths alone. */
  predicate SameLengths(h: Half, t: Half) {
    t.mode == h.mode && t.shares == h.shares && t.q.maxThresh == h.q.maxThresh && t.todo.grow == h.todo.grow
  }

  lemma CallLengths(c: Config, h: Half, a: Call)
    requires c.Valid() && CanCall(h, a)
    ensures var t := AfterCall(c, h, a);
            if a.Resize? then
              t.mode == h.mode && t.todo.grow && t.q.maxThresh >= h.q.maxThresh && Balanced(c, t) && Floored(t)
            else SameLengths(h, t)
  {
  }

  lemma SendLengths(c: Config, h: Half, k: Send)
    requires CanSend(h, k)
    ensures var t, out := AfterSend(c, h, k), Output(c, h, k);
            && SameLengths(h, t.(todo := t.todo.(grow := h.todo.grow)))
            && t.todo.grow == (h.todo.grow && !k.SendGrow?)
            && |out| <= 1 && (|out| == 1 ==> Weight(out[0]) <= h.q.maxThresh)
            && if k.SendGrow? then |out| == 1 && out[0].body == Grow(h.shares.reader + h.shares.writer, h.q.maxThresh)
               else forall i | 0 <= i < |out| :: !out[i].body.Grow?
  {
  }

  lemma ReceiveLengths(c: Config, h: Half, p: Packet)
    requires c.Valid() && Acceptable(h, p)
    ensures var t := AfterReceive(c, h, p);
            && t.mode == h.mode && t.todo.grow == h.todo.grow
            && t.q.maxThresh >= h.q.maxThresh && t.q.maxThresh <= Max(h.q.maxThresh, Weight(p))
            && (!p.body.Grow? ==> t.shares == h.shares)
            && (p.body.Grow? ==> t.q.maxThresh >= p.body.maxThresh)
  {
  }

  lemma GrowLengths(c: Config, h: Half, p: Packet)
    requires c.Valid() && p.body.Grow? && h.q.maxThresh <= p.body.maxThresh
    ensures var t := AfterReceive(c, h, p);
            && t.shares.reader == QueueLength(c, p.body.queueSize, p.body.maxThresh, Reader)
            && t.shares.writer == QueueLength(c, p.body.queueSize, p.body.maxThresh, Writer)
  {
  }

  // ---- the invariant, step by step

  lemma GrowerCalls(c: Config, a: Half, aLog: seq<Packet>, b: Half, bLog: seq<Packet>, n: nat, start: Start, x: Call)
    requires Announced(c, a, aLog, b, bLog, n, start) && CanCall(a, x)
    ensures Announced(c, AfterCall(c, a, x), aLog, b, bLog, n, start)
  {
    CallLengths(c, a, x);
  }

  lemma OtherCalls(c: Config, a: Half, aLog: seq<Packet>, b: Half, bLog: seq<Packet>, n: nat, start: Start, x: Call)
    requires Announced(c, a, aLog, b, bLog, n, start) && CanCall(b, x) && !x.Resize?
    ensures Announced(c, a, aLog, AfterCall(c, b, x), bLog, n, start)
  {
    CallLengths(c, b, x);
  }

  lemma WeighedOneMore(log: seq<Packet>, p: Packet, maxThresh: nat)
    requires Weighed(log, maxThresh) && Weight(p) <= maxThresh && (p.body.Grow? ==> p.body.maxThresh == maxThresh)
    ensures Weighed(log + [p], maxThresh)
  {
    var log' := log + [p];
    forall k | 0 <= k < |log'| ensures log'[k] == if k < |log| then log[k] else p {
    }
  }

  lemma SaidOneMore(log: seq<Packet>, p: Packet, n: nat, maxThresh: nat)
    requires n <= |log| && (p.body.Grow? ==> maxThresh <= p.body.maxThresh)
    requires forall k | n <= k < |log| && log[k].body.Grow? :: maxThresh <= log[k].body.maxThresh
    ensures (log + [p])[..n] == log[..n]
    ensures forall k | n <= k < |log + [p]| && (log + [p])[k].body.Grow? :: maxThresh <= (log + [p])[k].body.maxThresh
  {
  }

  lemma GrowerWrites(c: Config, a: Half, aLog: seq<Packet>, b: Half, bLog: seq<Packet>, n: nat, start: Start,
                     t: Half, p: Packet)
    requires Announced(c, a, aLog, b, bLog, n, start)
    requires t.mode == a.mode && t.shares == a.shares && t.q.maxThresh == a.q.maxThresh && Weight(p) <= a.q.maxThresh
    requires if p.body.Grow? then
               a.todo.grow && !t.todo.grow && p.body == Grow(a.shares.reader + a.shares.writer, a.q.maxThresh)
             else t.todo.grow == a.todo.grow
    ensures Announced(c, t, aLog + [p], b, bLog, n, start)
  {
    LastGrowOneMore(aLog, p);
    WeighedOneMore(aLog, p, a.q.maxThresh);
    SaidOneMore(aLog, p, n, b.q.maxThresh);
  }

  lemma GrowerSends(c: Config, a: Half, aLog: seq<Packet>, b: Half, bLog: seq<Packet>, n: nat, start: Start, k: Send)
    requires Announced(c, a, aLog, b, bLog, n, start) && CanSend(a, k)
    ensures Announced(c, AfterSend(c, a, k), aLog + Output(c, a, k), b, bLog, n, start)
  {
    SendLengths(c, a, k);
    var t, out := AfterSend(c, a, k), Output(c, a, k);
    if out == [] {
      assert aLog + out == aLog;
    } else {
      assert out == [out[0]];
      assert k.SendGrow? ==> a.todo.grow;
      GrowerWrites(c, a, aLog, b, bLog, n, start, t, out[0]);
    }
  }

  lemma OtherSends(c: Config, a: Half, aLog: seq<Packet>, b: Half, bLog: seq<Packet>, n: nat, start: Start, k: Send)
    requires Announced(c, a, aLog, b, bLog, n, start) && CanSend(b, k)
    ensures Announced(c, a, aLog, AfterSend(c, b, k), bLog + Output(c, b, k), n, start)
  {
    SendLengths(c, b, k);
  }

  lemma GrowerReceives(c: Config, a: Half, aLog: seq<Packet>, b: Half, bLog: seq<Packet>, n: nat, start: Start,
                       p: Packet)
    requires Announced(c, a, aLog, b, bLog, n, start) && p in bLog && Acceptable(a, p)
    ensures Announced(c, AfterReceive(c, a, p), aLog, b, bLog, n, start)
  {
    ReceiveLengths(c, a, p);
  }

  lemma OtherReceives(c: Config, a: Half, aLog: seq<Packet>, b: Half, bLog: seq<Packet>, n: nat, start: Start)
    requires Announced(c, a, aLog, b, bLog, n, start) && n < |aLog| && Acceptable(b, aLog[n])
    ensures Announced(c, a, aLog, AfterReceive(c, b, aLog[n]), bLog, n + 1, start)
  {
    var p := aLog[n];
    ReceiveLengths(c, b, p);
    assert aLog[..n + 1] == aLog[..n] + [p];
    LastGrowOneMore(aLog[..n], p);
    if p.body.Grow? {
      GrowLengths(c, b, p);
    }
  }

  /** What `side` has announced, in a state of the system. */
  ghost predicate Known(s: Sys, side: Mode, start: Start) {
    Announced(s.c, HalfAt(s, side), LogAt(s, side), HalfAt(s, Other(side)), LogAt(s, Other(side)), HandledOf(s, side),
              start)
  }

  lemma KnownInitially(s: Sys, side: Mode, length: nat, maxThresh: nat) returns (start: Start)
    requires Initial(s, length, maxThresh)
    ensures Known(s, side, start)
  {
    start := Start(s.w.shares, s.w.q.maxThresh);
    assert s.w.shares == s.r.shares && s.w.q.maxThresh == s.r.q.maxThresh;
    assert LogAt(s, side)[..0] == [];
  }

  lemma KnownAfterCall(s: Sys, at: Mode, x: Call, side: Mode, start: Start)
    requires Known(s, side, start) && Enabled(s, CallAt(at, x)) && (x.Resize? ==> at == side)
    ensures Known(Apply(s, CallAt(at, x)), side, start)
  {
    var a, aLog, b, bLog := HalfAt(s, side), LogAt(s, side), HalfAt(s, Other(side)), LogAt(s, Other(side));
    if at == side {
      GrowerCalls(s.c, a, aLog, b, bLog, HandledOf(s, side), start, x);
    } else {
      OtherCalls(s.c, a, aLog, b, bLog, HandledOf(s, side), start, x);
    }
  }

  lemma KnownAfterSend(s: Sys, at: Mode, k: Send, side: Mode, start: Start)
    requires Known(s, side, start) && Enabled(s, SendAt(at, k))
    ensures Known(Apply(s, SendAt(at, k)), side, start)
  {
    var a, aLog, b, bLog := HalfAt(s, side), LogAt(s, side), HalfAt(s, Other(side)), LogAt(s, Other(side));
    if at == side {
      GrowerSends(s.c, a, aLog, b, bLog, HandledOf(s, side), start, k);
    } else {
      OtherSends(s.c, a, aLog, b, bLog, HandledOf(s, side), start, k);
    }
  }

  lemma KnownAfterReceive(s: Sys, at: Mode, side: Mode, start: Start)
    requires Known(s, side, start) && Enabled(s, ReceiveAt(at)) && Safe(s, ReceiveAt(at))
    ensures Known(Apply(s, ReceiveAt(at)), side, start)
  {
    var a, aLog, b, bLog := HalfAt(s, side), LogAt(s, side), HalfAt(s, Other(side)), LogAt(s, Other(side));
    if at == side {
      GrowerReceives(s.c, a, aLog, b, bLog, HandledOf(s, side), start, bLog[HandledOf(s, Other(side))]);
    } else {
      OtherReceives(s.c, a, aLog, b, bLog, HandledOf(s, side), start);
    }
  }

  lemma KnownKept(s: Sys, e: Step, side: Mode, start: Start)
    requires Known(s, side, start) && Enabled(s, e) && Safe(s, e)
    requires Resizes(e) ==> e.side == side
    ensures Known(Apply(s, e), side, start)
  {
    match e
    case CallAt(at, x) => KnownAfterCall(s, at, x, side, start);
    case SendAt(at, k) => KnownAfterSend(s, at, k, side, start);
    case ReceiveAt(at) => KnownAfterReceive(s, at, side, start);
  }

  lemma {:induction false} KnownInRun(s: Sys, es: seq<Step>, s': Sys, side: Mode, start: Start)
    requires Inv(s) && Known(s, side, start) && Run(s, es, s') && OneSided(es, side)
    ensures Inv(s') && Known(s', side, start)
    decreases |es|
  {
    if es != [] {
      InvKept(s, es[0]);
      KnownKept(s, es[0], side, start);
      KnownInRun(Apply(s, es[0]), es[1..], s', side, start);
    }
  }

  lemma {:induction false} KnownWhenReached(s0: Sys, length: nat, maxThresh: nat, es: seq<Step>, s: Sys, side: Mode)
      returns (start: Start)
    requires Initial(s0, length, maxThresh) && Run(s0, es, s) && OneSided(es, side)
    ensures Known(s, side, start)
  {
    InitInv(s0, length, maxThresh);
    start := KnownInitially(s0, side, length, maxThresh);
    KnownInRun(s0, es, s, side, start);
  }

  // ---- agreement

  /** Two parts, each at least the threshold, of a total: when does splitting the total again give them back? */
  lemma SplitAgain(c: Config, sh: Shares, maxThresh: nat)
    requires c.Valid() && sh.reader >= maxThresh && sh.writer >= maxThresh
    ensures var t := sh.reader + sh.writer;
            (QueueLength(c, t, maxThresh, Reader) == sh.reader && QueueLength(c, t, maxThresh, Writer) == sh.writer)
            <==> c.share(t) == sh.writer
  {
  }

  /** Nothing that `side` has to say of the queue's size is unsaid or on its way. */
  ghost predicate AllHeard(s: Sys, side: Mode) {
    !HalfAt(s, side).todo.grow && GrowFree(LogAt(s, side), HandledOf(s, side))
  }

  /** No Grow message from position `n` on. */
  ghost predicate GrowFree(log: seq<Packet>, n: nat) {
    forall k | n <= k < |log| :: !log[k].body.Grow?
  }

  lemma AgreementOf(c: Config, a: Half, aLog: seq<Packet>, b: Half, bLog: seq<Packet>, n: nat, start: Start)
    requires Announced(c, a, aLog, b, bLog, n, start) && !a.todo.grow && GrowFree(aLog, n)
    ensures a.q.maxThresh == b.q.maxThresh
    ensures a.shares == b.shares <==>
              GrowFree(aLog, 0) || c.share(a.shares.reader + a.shares.writer) == a.shares.writer
    ensures a.shares.reader > a.q.maxThresh && a.shares.writer > a.q.maxThresh ==> a.shares == b.shares
  {
    LastGrowOfPrefix(aLog, n);
    if LastGrow(aLog).Some? {
      SplitAgain(c, a.shares, a.q.maxThresh);
    }
  }

  /**
   * In a run in which one side alone grows the queue, once nothing it has to say is unsaid or on
   * its way, both halves have the same threshold, and the same lengths exactly when the total it
   * announced is split as it was; and so it is whenever the threshold holds up neither length.
   */
  lemma {:induction false} GrowIsAgreed(s0: Sys, length: nat, maxThresh: nat, es: seq<Step>, s: Sys, side: Mode)
    requires Initial(s0, length, maxThresh) && Run(s0, es, s) && OneSided(es, side) && AllHeard(s, side)
    ensures var a, b := HalfAt(s, side), HalfAt(s, Other(side));
            && a.q.maxThresh == b.q.maxThresh
            && (a.shares == b.shares <==>
                  GrowFree(LogAt(s, side), 0) || s.c.share(a.shares.reader + a.shares.writer) == a.shares.writer)
            && (a.shares.reader > a.q.maxThresh && a.shares.writer > a.q.maxThresh ==> a.shares == b.shares)
  {
    var start := KnownWhenReached(s0, length, maxThresh, es, s, side);
    AgreementOf(s.c, HalfAt(s, side), LogAt(s, side), HalfAt(s, Other(side)), LogAt(s, Other(side)),
                HandledOf(s, side), start);
  }

  // ---- disagreement

  /**
   * A quarter for the writer, grown to 100 with a threshold of 60 that holds up the writer's 25:
   * the total announced is 135, of which the reader takes 102.
   */
  lemma ThresholdParts() returns (s0: Sys, es: seq<Step>, s: Sys)
    ensures Initial(s0, 8, 1) && Run(s0, es, s) && OneSided(es, Writer)
    ensures !s.w.todo.grow && s.rRead == |s.wLog|
    ensures s.w.shares == Shares(75, 60) && s.r.shares == Shares(102, 60)
  {
    var c := Config(n => n / 4, 0, false);
    s0 := Sys(c, Fresh(c, Writer, 8, 1), Fresh(c, Reader, 8, 1), [], 0, [], 0, [], [], 0, 0);
    var e1, e2, e3 := CallAt(Writer, Resize(100, 60)), SendAt(Writer, SendGrow), ReceiveAt(Reader);
    var s1 := Apply(s0, e1);
    assert s1.w.shares == Shares(75, 60);
    var s2 := Apply(s1, e2);
    assert s2.wLog[0].body == Grow(135, 60);
    s := Apply(s2, e3);
    assert Run(s, [], s);
    RunCons(s2, e3, [], s);
    RunCons(s1, e2, [e3] + [], s);
    es := [e1] + ([e2] + ([e3] + []));
    RunCons(s0, e1, [e2] + ([e3] + []), s);
  }

  /** A fresh half that grows to `length`, says so, and then hears of its peer's growth to `total`. */
  lemma GrowsAndHears(c: Config, mode: Mode, length: nat, total: nat) returns (h: Half, p: Packet)
    requires c == Config(n => n / 2, 0, false) && length % 2 == 0 && length >= 100 && total % 2 == 0 && total >= 100
    ensures var h0 := Fresh(c, mode, 8, 1);
            && CanCall(h0, Resize(length, 1)) && h == AfterCall(c, h0, Resize(length, 1)) && CanSend(h, SendGrow)
            && Output(c, h, SendGrow) == [p] && p.body == Grow(length, 1) && !AfterSend(c, h, SendGrow).todo.grow
    ensures forall q: Packet :: q.body == Grow(total, 1) ==>
              AfterReceive(c, AfterSend(c, h, SendGrow), q).shares == Shares(total / 2, total / 2)
  {
    h := AfterCall(c, Fresh(c, mode, 8, 1), Resize(length, 1));
    assert h.shares == Shares(length / 2, length / 2) && h.q.maxThresh == 1;
    p := Stamped(h, Grow(length, 1));
  }

  /** Both sides grow at once, to 100 and to 200: each takes the other's total, and they disagree for good. */
  lemma BothGrow() returns (s0: Sys, es: seq<Step>, s: Sys)
    ensures Initial(s0, 8, 1) && Run(s0, es, s)
    ensures !s.w.todo.grow && !s.r.todo.grow && s.rRead == |s.wLog| && s.wRead == |s.rLog|
    ensures s.w.shares == Shares(100, 100) && s.r.shares == Shares(50, 50)
  {
    var c := Config(n => n / 2, 0, false);
    s0 := Sys(c, Fresh(c, Writer, 8, 1), Fresh(c, Reader, 8, 1), [], 0, [], 0, [], [], 0, 0);
    var w, p := GrowsAndHears(c, Writer, 100, 200);
    var r, q := GrowsAndHears(c, Reader, 200, 100);
    var s1 := s0.(w := w);
    var s2 := s1.(r := r);
    var s3 := s2.(w := AfterSend(c, w, SendGrow), wLog := [p]);
    var s4 := s3.(r := AfterSend(c, r, SendGrow), rLog := [q]);
    var s5 := s4.(w := AfterReceive(c, s4.w, q), wRead := 1);
    s := s5.(r := AfterReceive(c, s4.r, p), rRead := 1);
    assert Run(s, [], s);
    RunCons(s5, ReceiveAt(Reader), [], s);
    RunCons(s4, ReceiveAt(Writer), [ReceiveAt(Reader)] + [], s);
    es := [ReceiveAt(Writer)] + ([ReceiveAt(Reader)] + []);
    GrowsFirst(s0, s1, s2, s3, s4, es, s);
    es := [CallAt(Writer, Resize(100, 1))] + ([CallAt(Reader, Resize(200, 1))] + ([SendAt(Writer, SendGrow)]
          + ([SendAt(Reader, SendGrow)] + es)));
  }

  lemma GrowsFirst(s0: Sys, s1: Sys, s2: Sys, s3: Sys, s4: Sys, es: seq<Step>, s: Sys)
    requires Enabled(s0, CallAt(Writer, Resize(100, 1))) && s1 == Apply(s0, CallAt(Writer, Resize(100, 1)))
    requires Enabled(s1, CallAt(Reader, Resize(200, 1))) && s2 == Apply(s1, CallAt(Reader, Resize(200, 1)))
    requires Enabled(s2, SendAt(Writer, SendGrow)) && s3 == Apply(s2, SendAt(Writer, SendGrow))
    requires Enabled(s3, SendAt(Reader, SendGrow)) && s4 == Apply(s3, SendAt(Reader, SendGrow))
    requires Run(s4, es, s)
    ensures Run(s0, [CallAt(Writer, Resize(100, 1))] + ([CallAt(Reader, Resize(200, 1))] + ([SendAt(Writer, SendGrow)]
                    + ([SendAt(Reader, SendGrow)] + es))), s)
  {
    var es4 := [SendAt(Reader, SendGrow)] + es;
    RunCons(s3, SendAt(Reader, SendGrow), es, s);
    var es3 := [SendAt(Writer, SendGrow)] + es4;
    RunCons(s2, SendAt(Writer, SendGrow), es4, s);
    var es2 := [CallAt(Reader, Resize(200, 1))] + es3;
    RunCons(s1, CallAt(Reader, Resize(200, 1)), es3, s);
    RunCons(s0, CallAt(Writer, Resize(100, 1)), es2, s);
  }
}

/** What holds in every run of a remote queue. */
module RemoteTheorems {
  import opened Helpers
  import opened RemoteHalf
  import opened RemoteSystem

  ghost predicate Run(s: Sys, es: seq<Step>, s': Sys)
    decreases |es|
  {
    if es == [] then s == s'
    else Enabled(s, es[0]) && Safe(s, es[0]) && Run(Apply(s, es[0]), es[1..], s')
  }

  /** Reachable from two fresh halves of a queue with this length and threshold. */
  ghost predicate Reachable(s: Sys) {
    exists s0, length, maxThresh, es :: Initial(s0, length, maxThresh) && Run(s0, es, s)
  }

  lemma {:induction false} RunKeepsInv(s: Sys, es: seq<Step>, s': Sys)
    requires Inv(s) && Run(s, es, s')
    ensures Inv(s')
    decreases |es|
  {
    if es != [] {
      InvKept(s, es[0]);
      RunKeepsInv(Apply(s, es[0]), es[1..], s');
    }
  }

  lemma ReachableInv(s: Sys)
    requires Reachable(s)
    ensures Inv(s)
  {
    var s0, length, maxThresh, es :| Initial(s0, length, maxThresh) && Run(s0, es, s);
    InitInv(s0, length, maxThresh);
    RunKeepsInv(s0, es, s);
  }

  lemma RunCons(s: Sys, e: Step, es: seq<Step>, s': Sys)
    requires Enabled(s, e) && Safe(s, e) && Run(Apply(s, e), es, s')
    ensures Run(s, [e] + es, s')
  {
    assert ([e] + es)[1..] == es;
  }

  /** One run after another. */
  lemma {:induction false} RunsOn(s: Sys, es: seq<Step>, s1: Sys, es': seq<Step>, s': Sys)
    requires Run(s, es, s1) && Run(s1, es', s')
    ensures Run(s, es + es', s')
    decreases |es|
  {
    if es == [] {
      assert es + es' == es';
    } else {
      RunsOn(Apply(s, es[0]), es[1..], s1, es', s');
      RunCons(s, es[0], es[1..] + es', s');
      assert [es[0]] + (es[1..] + es') == es + es';
    }
  }

  lemma StillReachable(s: Sys, e: Step)
    requires Reachable(s) && Enabled(s, e) && Safe(s, e)
    ensures Reachable(Apply(s, e))
  {
    var s0, length, maxThresh, es :| Initial(s0, length, maxThresh) && Run(s0, es, s);
    assert [e][1..] == [] && Run(Apply(s, e), [e][1..], Apply(s, e));
    RunsOn(s0, es, s, [e], Apply(s, e));
  }

  // ---- one queue

  /** The two halves and the stream between them are one first-in first-out queue. */
  lemma SplitQueueIsOneQueue(s: Sys)
    requires Reachable(s)
    ensures s.rRead <= |s.wLog|
    ensures s.enqueued == s.dequeued + s.r.q.buf + Data(s.wLog[s.rRead..]) + s.w.q.buf
  {
    ReachableInv(s);
    LogSplits(s.wLog, s.rRead);
  }

  /** The writer's byte count is the reader's plus everything on the wire, in both directions. */
  lemma CreditIsConserved(s: Sys)
    requires Reachable(s)
    ensures s.rRead <= |s.wLog| && s.wRead <= |s.rLog|
    ensures s.w.bytecount == s.r.bytecount + |Data(s.wLog[s.rRead..])| + Credits(s.rLog[s.wRead..])
    ensures |s.r.q.buf| <= s.r.bytecount
  {
    ReachableInv(s);
    CreditsInFlight(s);
  }

  /**
   * No handler assertion fails and no unsigned subtraction wraps, whatever arrives: a packet
   * comes to the side that handles its kind, only growth and tags to one that knows its peer
   * has closed, and never more credit than is out.
   */
  lemma NoAssertionFails(s: Sys, e: Step)
    requires Reachable(s) && Enabled(s, e)
    ensures Safe(s, e)
    ensures e == ReceiveAt(Reader) ==>
              var body := s.wLog[s.rRead].body;
              && !body.Dequeue? && !body.ReadBlock? && !body.EndOfRead?
              && (body.Grow? || body.D4RTag? || (s.r.mode.Reader? && !s.r.end.writeshutdown))
    ensures e == ReceiveAt(Writer) ==>
              var body := s.rLog[s.wRead].body;
              && !body.Enqueue? && !body.WriteBlock? && !body.EndOfWrite?
              && (body.Grow? || body.D4RTag? || (s.w.mode.Writer? && !s.w.end.readshutdown))
              && (body.Dequeue? ==> body.count <= s.w.bytecount)
  {
    ReachableInv(s);
    InvKept(s, e);
  }

  /**
   * With nothing on the wire and neither data nor credit to send, data left in the writer
   * means the reader holds its whole share: the split queue does not stall early.
   */
  lemma NoEarlyStall(s: Sys)
    requires Reachable(s) && s.rRead == |s.wLog| && s.wRead == |s.rLog|
    requires !s.w.end.dead && !s.w.end.sentEnd && !s.r.end.dead && !s.r.end.sentEnd
    requires !CanSend(s.w, SendEnqueue) && !CanSend(s.r, SendDequeue) && s.w.q.buf != []
    ensures |s.r.q.buf| >= s.w.shares.reader
  {
    ReachableInv(s);
    CreditsInFlight(s);
  }

  // ---- deadlock detection across the socket

  /**
   * A blocked reader's request calls for the writer's tag exactly when it is for more than the
   * writer knows to be unread: all that was ever enqueued, less the credit already come back.
   */
  lemma ReadBlockCallsForTag(s: Sys)
    requires Reachable(s) && Enabled(s, ReceiveAt(Writer)) && s.rLog[s.wRead].body.ReadBlock?
    ensures Safe(s, ReceiveAt(Writer)) && s.wRead < |s.rLog|
    ensures var p, t := s.rLog[s.wRead], Apply(s, ReceiveAt(Writer)).w;
            t.todo.tag <==>
              s.w.todo.tag || (s.c.useD4R && p.body.requested + Credits(s.rLog[..s.wRead]) > |s.enqueued|)
  {
    ReachableInv(s);
    InvKept(s, ReceiveAt(Writer));
    assert |s.enqueued| == |Data(s.wLog)| + |s.w.q.buf|;
  }

  /** A blocked writer's request calls for the reader's tag exactly when the reader's length has no room for it. */
  lemma WriteBlockCallsForTag(s: Sys)
    requires Reachable(s) && Enabled(s, ReceiveAt(Reader)) && s.wLog[s.rRead].body.WriteBlock?
    ensures Safe(s, ReceiveAt(Reader)) && s.rRead < |s.wLog|
    ensures var p, t := s.wLog[s.rRead], Apply(s, ReceiveAt(Reader)).r;
            t.todo.tag <==>
              s.r.todo.tag || (s.c.useD4R && |s.r.q.buf| + p.body.requested > s.r.shares.reader)
  {
    ReachableInv(s);
    InvKept(s, ReceiveAt(Reader));
  }

  // ---- the close

  function Ends(ps: seq<Packet>): nat {
    if ps == [] then 0 else (if ps[0].IsEnd() then 1 else 0) + Ends(ps[1..])
  }

  lemma {:induction false} OneEnd(ps: seq<Packet>, end: Body, sent: bool)
    requires EndsLast(ps, end, sent)
    ensures Ends(ps) == if sent then 1 else 0
  {
    if |ps| > 1 {
      var t := ps[1..];
      assert forall k | 0 <= k < |t| :: t[k] == ps[k + 1];
      assert !ps[0].IsEnd();
      OneEnd(t, end, sent);
    }
  }

  /**
   * Each side sends one End packet, and nothing after it; it dies only after sending its own
   * and receiving its peer's.
   */
  lemma CloseHandshake(s: Sys)
    requires Reachable(s)
    ensures Ends(s.wLog) == (if s.w.end.sentEnd then 1 else 0) && Ends(s.rLog) == (if s.r.end.sentEnd then 1 else 0)
    ensures forall k | 0 <= k < |s.wLog| && s.wLog[k].IsEnd() :: k == |s.wLog| - 1
    ensures forall k | 0 <= k < |s.rLog| && s.rLog[k].IsEnd() :: k == |s.rLog| - 1
    ensures s.w.end.dead ==> s.w.end.sentEnd && s.r.end.sentEnd && s.wRead == |s.rLog|
    ensures s.r.end.dead ==> s.r.end.sentEnd && s.w.end.sentEnd && s.rRead == |s.wLog|
  {
    ReachableInv(s);
    OneEnd(s.wLog, EndOfWrite, s.w.end.sentEnd);
    OneEnd(s.rLog, EndOfRead, s.r.end.sentEnd);
  }

  /** End of file is seen only after the peer's End packet has set the shutdown flag. */
  lemma EofImpliesShutdown(s: Sys)
    requires Reachable(s)
    ensures s.w.end.sentEnd && s.rRead == |s.wLog| ==> s.r.end.writeshutdown
    ensures s.r.end.sentEnd && s.wRead == |s.rLog| ==> s.w.end.readshutdown
  {
    ReachableInv(s);
  }

  /** A close started by the writer loses nothing as long as the reader has not closed too. */
  lemma WriterCloseLosesNothing(s: Sys)
    requires Reachable(s) && !s.r.end.readshutdown
    ensures s.w.end.sentEnd ==> s.w.q.buf == [] && s.w.end.writeshutdown
    ensures s.w.end.dead || s.r.end.dead ==> s.enqueued == s.dequeued + s.r.q.buf
  {
    ReachableInv(s);
    if s.w.end.dead || s.r.end.dead {
      assert s.wLog[..s.rRead] == s.wLog;
      assert s.enqueued == Data(s.wLog) + [];
    }
  }

  // ---- clocks

  /** Clocks never fall; every packet sent or received moves its side's clock strictly up. */
  lemma ClocksRise(s: Sys, e: Step)
    requires Reachable(s) && Enabled(s, e) && Safe(s, e)
    ensures var s' := Apply(s, e);
            && s'.w.clk.own >= s.w.clk.own && s'.r.clk.own >= s.r.clk.own
            && (|s'.wLog| > |s.wLog| || s'.wRead > s.wRead ==> s'.w.clk.own > s.w.clk.own)
            && (|s'.rLog| > |s.rLog| || s'.rRead > s.rRead ==> s'.r.clk.own > s.r.clk.own)
  {
    ReachableInv(s);
    match e
    case CallAt(Writer, a) => CallClock(s.c, s.w, a);
    case CallAt(Reader, a) => CallClock(s.c, s.r, a);
    case SendAt(Writer, k) => SendClock(s.c, s.w, k);
    case SendAt(Reader, k) => SendClock(s.c, s.r, k);
    case ReceiveAt(Writer) => ReceiveClock(s.c, s.w, s.rLog[s.wRead], Reader);
    case ReceiveAt(Reader) => ReceiveClock(s.c, s.r, s.wLog[s.rRead], Writer);
  }

  /** On either stream every packet carries a later clock of its sender than the one before it. */
  lemma StampsRise(s: Sys, i: nat, j: nat)
    requires Reachable(s) && i < j
    ensures j < |s.wLog| ==> s.wLog[i].Stamp(Writer) < s.wLog[j].Stamp(Writer) <= s.w.clk.own
    ensures j < |s.rLog| ==> s.rLog[i].Stamp(Reader) < s.rLog[j].Stamp(Reader) <= s.r.clk.own
  {
    ReachableInv(s);
  }

  /**
   * A waiting side leaves its first loop once its saved clock is no longer past the own clock
   * last echoed: by then the peer has processed a packet sent after the wait began, hence
   * every packet sent before it.
   */
  lemma ClockTestIsCausal(s: Sys)
    requires Reachable(s)
    ensures s.r.wait.Waiting? && s.r.wait.saveclock <= s.r.clk.read ==> s.rMark < s.wRead <= |s.rLog|
    ensures s.w.wait.Waiting? && s.w.wait.saveclock <= s.w.clk.write ==> s.wMark < s.rRead <= |s.wLog|
  {
    ReachableInv(s);
  }

  // ---- runs without growth

  predicate Resizes(e: Step) {
    e.CallAt? && e.call.Resize?
  }

  predicate AtReader(e: Step) {
    e.side.Reader?
  }

  ghost predicate NoResize(es: seq<Step>) {
    forall k | 0 <= k < |es| :: !Resizes(es[k])
  }

  /** Both sides agree on the lengths, and the writer's credit fits the reader's buffer. */
  ghost predicate Bounded(s: Sys, share: nat, maxThresh: nat) {
    && s.w.shares.reader == share && s.w.q.maxThresh == maxThresh
    && s.r.q.maxThresh == maxThresh && s.r.q.length == Max(share, maxThresh)
    && !s.w.todo.grow && !s.r.todo.grow
    && (forall k | 0 <= k < |s.wLog| :: !s.wLog[k].body.Grow? && |Payload(s.wLog[k])| <= maxThresh)
    && (forall k | 0 <= k < |s.rLog| :: !s.rLog[k].body.Grow?)
    && s.w.bytecount <= Max(share, maxThresh)
  }

  lemma BoundFits(s: Sys, share: nat, maxThresh: nat)
    requires Shape(s) && Counts(s) && Bounded(s, share, maxThresh) && s.rRead < |s.wLog|
    ensures !SilentGrow(s.r, Payload(s.wLog[s.rRead]))
  {
    CreditsInFlight(s);
    assert s.wLog[s.rRead..][0] == s.wLog[s.rRead];
  }

  lemma BoundedKeptByWriter(s: Sys, e: Step, share: nat, maxThresh: nat)
    requires Inv(s) && Bounded(s, share, maxThresh) && Enabled(s, e) && Safe(s, e) && !Resizes(e)
    requires !AtReader(e)
    ensures Bounded(Apply(s, e), share, maxThresh)
  {
    match e
    case CallAt(Writer, a) =>
      var h := AfterCall(s.c, s.w, a);
      assert h.shares == s.w.shares && h.q.maxThresh == maxThresh && h.bytecount == s.w.bytecount;
    case SendAt(Writer, k) =>
      var h, out := AfterSend(s.c, s.w, k), Output(s.c, s.w, k);
      assert h.shares == s.w.shares && h.q.maxThresh == maxThresh && h.bytecount <= Max(share, maxThresh);
      assert forall i | 0 <= i < |out| :: !out[i].body.Grow? && |Payload(out[i])| <= maxThresh;
    case ReceiveAt(Writer) =>
      var h := AfterReceive(s.c, s.w, s.rLog[s.wRead]);
      assert h.shares == s.w.shares && h.q.maxThresh == maxThresh && h.bytecount <= s.w.bytecount;
  }

  lemma BoundedKeptByReader(s: Sys, e: Step, share: nat, maxThresh: nat)
    requires Inv(s) && Bounded(s, share, maxThresh) && Enabled(s, e) && Safe(s, e) && !Resizes(e)
    requires AtReader(e)
    ensures Bounded(Apply(s, e), share, maxThresh)
  {
    match e
    case CallAt(Reader, a) =>
      var h := AfterCall(s.c, s.r, a);
      assert h.q.length == s.r.q.length && h.q.maxThresh == maxThresh;
    case SendAt(Reader, k) =>
      var h, out := AfterSend(s.c, s.r, k), Output(s.c, s.r, k);
      assert h.q == s.r.q;
      assert forall i | 0 <= i < |out| :: !out[i].body.Grow?;
    case ReceiveAt(Reader) =>
      BoundFits(s, share, maxThresh);
      var h := AfterReceive(s.c, s.r, s.wLog[s.rRead]);
      assert h.q.length == s.r.q.length && h.q.maxThresh == maxThresh;
  }

  lemma BoundedStep(s: Sys, e: Step, share: nat, maxThresh: nat)
    requires Inv(s) && Bounded(s, share, maxThresh) && Enabled(s, e) && !Resizes(e)
    ensures Safe(s, e) && Inv(Apply(s, e)) && Bounded(Apply(s, e), share, maxThresh)
  {
    InvKept(s, e);
    if AtReader(e) {
      BoundedKeptByReader(s, e, share, maxThresh);
    } else {
      BoundedKeptByWriter(s, e, share, maxThresh);
    }
  }

  lemma {:induction false} BoundedRun(s: Sys, es: seq<Step>, s': Sys, share: nat, maxThresh: nat)
    requires Inv(s) && Bounded(s, share, maxThresh) && Run(s, es, s') && NoResize(es)
    ensures Inv(s') && Bounded(s', share, maxThresh)
    decreases |es|
  {
    if es != [] {
      assert !Resizes(es[0]);
      BoundedStep(s, es[0], share, maxThresh);
      BoundedRun(Apply(s, es[0]), es[1..], s', share, maxThresh);
    }
  }

  /**
   * In a run without growth the writer never has more bytes outstanding than the reader's
   * buffer holds, and the reader never has to grow silently.
   */
  lemma CreditBound(s0: Sys, length: nat, maxThresh: nat, es: seq<Step>, s: Sys)
    requires Initial(s0, length, maxThresh) && Run(s0, es, s) && NoResize(es)
    ensures s.w.bytecount <= s.r.q.length == s0.r.q.length
    ensures maxThresh > 0 ==> s.w.bytecount <= s.w.shares.reader
    ensures s.rRead < |s.wLog| ==>
              var data := Payload(s.wLog[s.rRead]); |data| <= s.r.q.length - |s.r.q.buf| && |data| <= s.r.q.maxThresh
  {
    InitInv(s0, length, maxThresh);
    var share, mt := s0.w.shares.reader, s0.w.q.maxThresh;
    BoundedRun(s0, es, s, share, mt);
    if s.rRead < |s.wLog| {
      BoundFits(s, share, mt);
    }
  }
}

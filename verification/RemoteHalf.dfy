/**
 * One half of a remote queue as a value: what each packet, each handler and each
 * application call does to it.
 */
module RemoteHalf {
  import opened Helpers

  /** One byte for each channel; a queue of columns is a queue for every channel at once. */
  type Column = seq<bv8>

  datatype Mode = Reader | Writer

  /** What the two clock stamps of every packet header hold is kept beside the payload. */
  datatype Body =
    | Enqueue(data: seq<Column>)
    | Dequeue(count: nat)
    | ReadBlock(requested: nat)
    | WriteBlock(requested: nat)
    | EndOfWrite
    | EndOfRead
    | Grow(queueSize: nat, maxThresh: nat)
    | D4RTag

  datatype Packet = Packet(body: Body, readClock: nat, writeClock: nat) {
    function Stamp(sender: Mode): nat {
      if sender.Reader? then readClock else writeClock
    }

    /** What the sender knew of the other side's clock. */
    function Known(sender: Mode): nat {
      if sender.Reader? then writeClock else readClock
    }

    predicate IsEnd() {
      body.EndOfWrite? || body.EndOfRead?
    }
  }

  /**
   * `share(n)` is the writer's part of a queue of length n: n times a fraction in double
   * arithmetic, truncated. Any function that never exceeds n will do.
   */
  datatype Config = Config(share: nat -> nat, maxWrite: nat, useD4R: bool) {
    ghost predicate Valid() {
      forall n :: share(n) <= n
    }
  }

  datatype Pending = Idle | Waiting(saveclock: nat)

  /** The local threshold queue. */
  datatype Store = Store(buf: seq<Column>, length: nat, maxThresh: nat) {
    function Free(): int {
      length - |buf|
    }
  }

  /** Own clock, and the last known reader and writer clocks. */
  datatype Clock = Clock(own: nat, read: nat, write: nat)

  /** Lengths of the two sides' buffers, as this side knows them. */
  datatype Shares = Shares(reader: nat, writer: nat)

  /** Bytes a blocked reader or writer is waiting for. */
  datatype Asks = Asks(read: nat, write: nat)

  /** Messages waiting for the next status check, and the mark of a received tag. */
  datatype Todo = Todo(block: bool, grow: bool, tag: bool, updated: bool)

  datatype Closing = Closing(sentEnd: bool, dead: bool, readshutdown: bool, writeshutdown: bool)

  datatype Half = Half(
    mode: Mode, q: Store, bytecount: nat, clk: Clock, shares: Shares, asks: Asks,
    todo: Todo, end: Closing, wait: Pending)
  {
    /** The last stamp heard from the other side. */
    function Heard(): nat {
      if mode.Reader? then clk.write else clk.read
    }

    /** The last own stamp the other side is known to have heard. */
    function Echoed(): nat {
      if mode.Reader? then clk.read else clk.write
    }

    /** This side's application is done. */
    predicate Closed() {
      if mode.Writer? then end.writeshutdown else end.readshutdown
    }

    predicate PeerClosed() {
      if mode.Reader? then end.writeshutdown else end.readshutdown
    }
  }

  /** The length of one side's buffer: its share, the writer's or what that leaves, or the threshold if that is more. */
  function QueueLength(c: Config, length: nat, maxThresh: nat, mode: Mode): (r: nat)
    requires c.Valid()
    ensures r >= maxThresh
    ensures mode.Writer? ==> r >= c.share(length) && (r == c.share(length) || r == maxThresh)
    ensures mode.Reader? ==> r + c.share(length) >= length && (r + c.share(length) == length || r == maxThresh)
  {
    if mode.Reader? then Max(length - c.share(length), maxThresh) else Max(c.share(length), maxThresh)
  }

  function Fresh(c: Config, mode: Mode, length: nat, maxThresh: nat): Half
    requires c.Valid()
  {
    Half(mode,
         Store([], Max(QueueLength(c, length, maxThresh, mode), Max(maxThresh, 1)), Max(maxThresh, 1)),
         0,
         Clock(0, 0, 0),
         Shares(QueueLength(c, length, maxThresh, Reader), QueueLength(c, length, maxThresh, Writer)),
         Asks(0, 0),
         Todo(false, false, false, false),
         Closing(false, false, false, false),
         Idle)
  }

  // ---- sending

  datatype Send = SendEnqueue | SendDequeue | SendBlock | SkipBlock | SendGrow | SendTag | SendEnd | Close

  /** The guard under which the status check performs each of its actions. */
  predicate CanSend(h: Half, k: Send) {
    && !h.end.dead
    && match k
       case SendEnqueue => h.mode.Writer? && !h.end.sentEnd && h.q.buf != [] && h.bytecount < h.shares.reader
       case SendDequeue => h.mode.Reader? && !h.end.sentEnd && h.bytecount > |h.q.buf|
       case SendBlock => !h.end.sentEnd && h.todo.block && Starved(h)
       case SkipBlock => !h.end.sentEnd && h.todo.block && !Starved(h)
       case SendGrow => !h.end.sentEnd && h.todo.grow
       case SendTag => !h.end.sentEnd && h.todo.tag && !h.Closed()
       case SendEnd => !h.end.sentEnd && (h.PeerClosed() || (h.Closed() && (h.mode.Writer? ==> h.q.buf == [])))
       case Close => h.end.sentEnd && h.PeerClosed()
  }

  /** The request that made this side wait is still not met. */
  predicate Starved(h: Half) {
    if h.mode.Writer? then h.asks.write > h.q.Free() else h.asks.read > |h.q.buf|
  }

  function Stamped(h: Half, body: Body): Packet {
    if h.mode.Reader? then Packet(body, h.clk.own + 1, h.clk.write) else Packet(body, h.clk.read, h.clk.own + 1)
  }

  /** How many columns the next enqueue packet carries. */
  function EnqueueCount(c: Config, h: Half): (n: nat)
    requires h.bytecount < Max(h.shares.reader, h.q.maxThresh)
    ensures n <= |h.q.buf| && n <= h.q.maxThresh && (c.maxWrite > 0 ==> n <= c.maxWrite)
    ensures h.bytecount + n <= Max(h.shares.reader, h.q.maxThresh)
    ensures || n == |h.q.buf| || n == h.q.maxThresh || n == c.maxWrite
            || h.bytecount + n == h.shares.reader || h.bytecount + n == h.q.maxThresh
    ensures h.q.buf != [] && h.q.maxThresh > 0 ==> n > 0
  {
    var expectedfree := Max(h.shares.reader, h.q.maxThresh) - h.bytecount;
    var capped := if c.maxWrite > 0 then Min(|h.q.buf|, c.maxWrite) else |h.q.buf|;
    Min(Min(capped, h.q.maxThresh), expectedfree)
  }

  function BodyOf(c: Config, h: Half, k: Send): Body
    requires CanSend(h, k) && !k.SkipBlock? && !k.Close?
  {
    match k
    case SendEnqueue => Enqueue(h.q.buf[..EnqueueCount(c, h)])
    case SendDequeue => Dequeue(h.bytecount - |h.q.buf|)
    case SendBlock => if h.mode.Writer? then WriteBlock(h.asks.write) else ReadBlock(h.asks.read)
    case SendGrow => Grow(h.shares.reader + h.shares.writer, h.q.maxThresh)
    case SendTag => D4RTag
    case SendEnd => if h.mode.Writer? then EndOfWrite else EndOfRead
  }

  predicate Emits(c: Config, h: Half, k: Send)
    requires CanSend(h, k)
  {
    !k.SkipBlock? && !k.Close? && (k.SendEnqueue? ==> EnqueueCount(c, h) > 0)
  }

  /** The packet an action puts on the wire, if any. */
  function Output(c: Config, h: Half, k: Send): seq<Packet>
    requires CanSend(h, k)
  {
    if Emits(c, h, k) then [Stamped(h, BodyOf(c, h, k))] else []
  }

  function AfterSend(c: Config, h: Half, k: Send): Half
    requires CanSend(h, k)
  {
    var t := if Emits(c, h, k) then h.(clk := h.clk.(own := h.clk.own + 1)) else h;
    match k
    case SendEnqueue =>
      var n := EnqueueCount(c, h);
      t.(q := h.q.(buf := h.q.buf[n..]), bytecount := h.bytecount + n)
    case SendDequeue => t.(bytecount := |h.q.buf|)
    case SendBlock => t.(todo := h.todo.(block := false))
    case SkipBlock => t.(todo := h.todo.(block := false))
    case SendGrow => t.(todo := h.todo.(grow := false))
    case SendTag => t.(todo := h.todo.(tag := false))
    case SendEnd => t.(end := h.end.(sentEnd := true))
    case Close => t.(end := h.end.(dead := true))
  }

  // ---- receiving

  /** The assertions at the head of each handler. */
  predicate Expected(h: Half, p: Packet) {
    match p.body
    case Enqueue(_) => h.mode.Reader? && !h.end.writeshutdown
    case WriteBlock(_) => h.mode.Reader? && !h.end.writeshutdown
    case EndOfWrite => h.mode.Reader? && !h.end.writeshutdown
    case Dequeue(_) => h.mode.Writer? && !h.end.readshutdown
    case ReadBlock(_) => h.mode.Writer? && !h.end.readshutdown
    case EndOfRead => h.mode.Writer? && !h.end.readshutdown
    case Grow(_, _) => true
    case D4RTag => true
  }

  function Clocked(h: Half, p: Packet): Half {
    var peer := if h.mode.Reader? then p.writeClock else p.readClock;
    h.(clk := Clock(Max(peer, h.clk.own) + 1, p.readClock, p.writeClock))
  }

  /** The data does not fit, so the reader half grows without being asked to. */
  predicate SilentGrow(h: Half, data: seq<Column>) {
    |data| > h.q.Free() || |data| > h.q.maxThresh
  }

  /** The store with `data` appended, grown first when it does not fit. */
  function Appended(q: Store, data: seq<Column>): Store {
    if |data| > q.Free() || |data| > q.maxThresh then
      Store(q.buf + data, Max(q.length, |q.buf| + |data|), Max(q.maxThresh, |data|))
    else
      q.(buf := q.buf + data)
  }

  /** Does a block request from the other side call for a tag? */
  predicate TagWanted(c: Config, h: Half, requested: nat) {
    && c.useD4R
    && if h.mode.Writer? then requested > |h.q.buf| + h.bytecount
       else |h.q.buf| > h.shares.reader || requested > h.shares.reader - |h.q.buf|
  }

  /** Set both shares for a new total length, and grow the local buffer to its share. */
  function Resized(c: Config, h: Half, total: nat, maxThresh: nat): Half
    requires c.Valid()
  {
    var mt := Max(h.q.maxThresh, maxThresh);
    h.(shares := Shares(QueueLength(c, total, mt, Reader), QueueLength(c, total, mt, Writer)),
       q := Store(h.q.buf, Max(h.q.length, QueueLength(c, total, mt, h.mode)), mt))
  }

  function Handled(c: Config, h: Half, body: Body): Half
    requires c.Valid()
    requires body.Dequeue? ==> body.count <= h.bytecount
  {
    match body
    case Enqueue(data) =>
      h.(q := Appended(h.q, data), bytecount := h.bytecount + |data|, asks := h.asks.(write := 0))
    case Dequeue(count) =>
      h.(asks := h.asks.(read := 0), bytecount := h.bytecount - count)
    case ReadBlock(requested) =>
      h.(asks := h.asks.(read := requested), todo := h.todo.(tag := h.todo.tag || TagWanted(c, h, requested)))
    case WriteBlock(requested) =>
      h.(asks := h.asks.(write := requested), todo := h.todo.(tag := h.todo.tag || TagWanted(c, h, requested)))
    case EndOfWrite => h.(end := h.end.(writeshutdown := true))
    case EndOfRead => h.(end := h.end.(readshutdown := true))
    case Grow(queueSize, maxThresh) => Resized(c, h, queueSize, maxThresh)
    case D4RTag => h.(todo := h.todo.(updated := true))
  }

  function AfterReceive(c: Config, h: Half, p: Packet): Half
    requires c.Valid() && Expected(h, p)
    requires p.body.Dequeue? ==> p.body.count <= h.bytecount
  {
    Clocked(Handled(c, h, p.body), p)
  }

  // ---- the application's side

  datatype Call =
    | Put(data: seq<Column>)
    | Take(n: nat)
    | Shutdown
    | Resize(length: nat, maxThresh: nat)
    | BeginWait(request: nat)
    | EndWait
    | TagChanged

  predicate CanCall(h: Half, a: Call) {
    match a
    case Put(data) => h.mode.Writer? && !h.end.writeshutdown && |data| <= h.q.Free() && |data| <= h.q.maxThresh
    case Take(n) => h.mode.Reader? && !h.end.readshutdown && n <= |h.q.buf| && n <= h.q.maxThresh
    case Shutdown => true
    case Resize(length, maxThresh) =>
      && (length > h.shares.reader + h.shares.writer || maxThresh > h.q.maxThresh)
      && (!h.todo.grow || h.end.dead)
    case BeginWait(request) => h.wait.Idle?
    case EndWait => h.wait.Waiting?
    case TagChanged => true
  }

  function Asked(h: Half, request: nat): Asks {
    if h.mode.Writer? then h.asks.(write := request) else h.asks.(read := request)
  }

  function AfterCall(c: Config, h: Half, a: Call): Half
    requires c.Valid() && CanCall(h, a)
  {
    match a
    case Put(data) => h.(q := h.q.(buf := h.q.buf + data))
    case Take(n) => h.(q := h.q.(buf := h.q.buf[n..]))
    case Shutdown =>
      h.(end := if h.mode.Writer? then h.end.(writeshutdown := true) else h.end.(readshutdown := true))
    case Resize(length, maxThresh) =>
      Resized(c, h, length, maxThresh).(todo := h.todo.(grow := true))
    case BeginWait(request) =>
      h.(todo := h.todo.(block := true, updated := false), wait := Waiting(h.clk.own + 1), asks := Asked(h, request))
    case EndWait =>
      h.(wait := Idle, asks := Asked(h, 0))
    case TagChanged => h.(todo := h.todo.(tag := true))
  }
}

/** The D4R protocol as a transition system over a network of nodes. */
module D4RNetwork {
  import opened D4RTag

  datatype Side = Reading | Writing(length: nat) {
    /** The queue size handed to Block: -1 for readers, the queue length for writers. */
    function Size(): nat {
      match this
      case Reading => READ_SIZE
      case Writing(n) => n
    }
  }

  /** `Failed` is a node whose reader side threw the deadlock exception. */
  datatype Wait = Running | BlockedOn(on: nat, side: Side) | Failed

  /** `flag` is the tag-changed flag of the queue the node waits on, for its direction. */
  datatype Node = Node(pub: Tag, priv: Tag, wait: Wait, flag: bool)

  type Net = seq<Node>

  datatype Event =
    | Block(i: nat, j: nat, side: Side)
    | Transmit(i: nat)
    | Unblock(i: nat)

  predicate Blocked(s: Net, i: nat) {
    i < |s| && s[i].wait.BlockedOn?
  }

  predicate Edge(s: Net, i: nat, j: nat) {
    i < |s| && j < |s| && s[i].wait.BlockedOn? && s[i].wait.on == j
  }

  function Key(s: Net, i: nat): nat
    requires i < |s|
  {
    s[i].priv.lab.low
  }

  /** Raise the flag on every edge that leads to node `i`. */
  function Signalled(s: Net, i: nat): (r: Net)
    ensures |r| == |s|
    ensures forall k | 0 <= k < |s| :: r[k] == s[k].(flag := s[k].flag || Edge(s, k, i))
  {
    seq(|s|, k requires 0 <= k < |s| => s[k].(flag := s[k].flag || Edge(s, k, i)))
  }

  predicate Enabled(s: Net, e: Event) {
    match e
    case Block(i, j, side) =>
      i < |s| && j < |s| && s[i].wait.Running? && (side.Writing? ==> side.length < READ_SIZE)
    case Transmit(i) =>
      Blocked(s, i) && s[i].wait.on < |s| && s[i].flag
    case Unblock(i) =>
      Blocked(s, i) && s[i].wait.on < |s| && !Blocked(s, s[i].wait.on)
  }

  /** Does this enabled event report a deadlock? */
  predicate Reports(s: Net, e: Event)
    requires Enabled(s, e)
  {
    e.Transmit? && Detects(s[e.i].pub, s[e.i].priv, s[s[e.i].wait.on].pub)
  }

  /** A reporting writer grows its queue and is released; a reporting reader throws. */
  function Outcome(side: Side): Wait {
    if side.Writing? then Running else Failed
  }

  function Apply(s: Net, e: Event): (r: Net)
    requires Enabled(s, e)
    ensures |r| == |s|
  {
    match e
    case Block(i, j, side) =>
      var t := StampTag(s[i].pub, s[i].priv, s[j].pub, side.Size());
      Signalled(s[i := Node(t, t, BlockedOn(j, side), false)], i)
    case Transmit(i) =>
      var n := s[i];
      var t := s[n.wait.on].pub;
      if Reports(s, e) then
        s[i := n.(wait := Outcome(n.wait.side), flag := false)]
      else
        var pub := PullTag(n.pub, n.priv, t);
        var s1 := s[i := n.(pub := pub, flag := false)];
        if n.pub.Less(t) then Signalled(s1, i) else s1
    case Unblock(i) =>
      s[i := s[i].(wait := Running)]
  }

  /** A network in which no node has blocked yet. */
  predicate Initial(s: Net) {
    && (forall i | 0 <= i < |s| ::
          s[i] == Node(InitialTag(Key(s, i)), InitialTag(Key(s, i)), Running, false))
    && (forall i, j | 0 <= i < j < |s| :: Key(s, i) != Key(s, j))
  }

  /** `s` is reached from `s0` by the events in order. */
  ghost predicate Run(s0: Net, es: seq<Event>, s: Net)
    decreases |es|
  {
    if es == [] then s0 == s
    else Enabled(s0, es[0]) && Run(Apply(s0, es[0]), es[1..], s)
  }

  ghost predicate Reachable(s: Net) {
    exists s0, es :: Initial(s0) && Run(s0, es, s)
  }

  lemma {:induction false} RunOneMore(s0: Net, es: seq<Event>, s: Net, e: Event)
    requires Run(s0, es, s) && Enabled(s, e)
    ensures Run(s0, es + [e], Apply(s, e))
    decreases |es|
  {
    if es == [] {
      assert [e][1..] == [];
      assert Run(Apply(s, e), [e][1..], Apply(s, e));
      assert es + [e] == [e];
    } else {
      RunOneMore(Apply(s0, es[0]), es[1..], s, e);
      assert (es + [e])[1..] == es[1..] + [e];
    }
  }

  lemma StillReachable(s: Net, e: Event)
    requires Reachable(s) && Enabled(s, e)
    ensures Reachable(Apply(s, e))
  {
    var s0, es :| Initial(s0) && Run(s0, es, s);
    RunOneMore(s0, es, s, e);
  }

  // ---- wait paths and cycles

  ghost predicate IsPath(s: Net, p: seq<nat>) {
    && p != []
    && (forall k | 0 <= k < |p| :: p[k] < |s|)
    && (forall k | 0 <= k < |p| - 1 :: Edge(s, p[k], p[k + 1]))
  }

  ghost predicate IsCycle(s: Net, c: seq<nat>) {
    IsPath(s, c) && Edge(s, c[|c| - 1], c[0])
  }

  /** A node waits on one other node only, so a path that starts on a cycle never leaves it. */
  lemma {:induction false} CycleIsClosed(s: Net, c: seq<nat>, p: seq<nat>)
    requires IsCycle(s, c) && IsPath(s, p) && p[0] in c
    ensures forall k | 0 <= k < |p| :: p[k] in c
  {
    var k := 1;
    while k < |p|
      invariant 1 <= k <= |p|
      invariant forall l | 0 <= l < k :: p[l] in c
    {
      NextIsOnCycle(s, c, p[k - 1], p[k]);
      k := k + 1;
    }
  }

  lemma NextIsOnCycle(s: Net, c: seq<nat>, i: nat, j: nat)
    requires IsCycle(s, c) && i in c && Edge(s, i, j)
    ensures j in c
  {
    var k :| 0 <= k < |c| && c[k] == i;
    if k < |c| - 1 {
      assert Edge(s, c[k], c[k + 1]);
    }
  }

  lemma CycleIsBlocked(s: Net, c: seq<nat>, i: nat)
    requires IsCycle(s, c) && i in c
    ensures Blocked(s, i) && s[i].wait.on in c && s[i].wait.on < |s|
  {
    var k :| 0 <= k < |c| && c[k] == i;
    if k < |c| - 1 {
      assert Edge(s, c[k], c[k + 1]);
    }
  }

  lemma FramePath(s: Net, s': Net, p: seq<nat>)
    requires IsPath(s, p) && |s'| == |s|
    requires forall k | 0 <= k < |p| - 1 :: s'[p[k]].wait == s[p[k]].wait
    ensures IsPath(s', p)
  {
    forall k | 0 <= k < |p| - 1 ensures Edge(s', p[k], p[k + 1]) {
      assert Edge(s, p[k], p[k + 1]);
    }
  }

  lemma PrefixPath(s: Net, p: seq<nat>, n: nat)
    requires IsPath(s, p) && 0 < n <= |p|
    ensures IsPath(s, p[..n])
  {
    forall k | 0 <= k < n - 1 ensures Edge(s, p[..n][k], p[..n][k + 1]) {
      assert Edge(s, p[k], p[k + 1]);
    }
  }

  lemma ConsPath(s: Net, i: nat, p: seq<nat>)
    requires IsPath(s, p) && Edge(s, i, p[0])
    ensures IsPath(s, [i] + p)
  {
    var q := [i] + p;
    forall k | 0 <= k < |q| - 1 ensures Edge(s, q[k], q[k + 1]) {
      if k > 0 {
        assert Edge(s, p[k - 1], p[k]);
      }
    }
  }
}

/**
 * What every step of the D4R protocol keeps, whatever nodes block, unblock, pull tags,
 * report deadlocks and are released.
 */
module D4RInvariant {
  import opened D4RTag
  import opened D4RNetwork

  /** Per-node facts: own key in both private halves, and how the private tag bounds the public. */
  ghost predicate NodeOk(s: Net, i: nat)
    requires i < |s|
  {
    var n := s[i];
    && n.priv.lab.low == n.priv.prio.low
    && !n.pub.lab.Less(n.priv.lab)
    && !n.priv.prio.Less(n.pub.prio)
    && (n.wait.BlockedOn? ==>
          && n.wait.on < |s|
          && n.priv.prio.high == n.wait.side.Size()
          && (n.wait.side.Writing? ==> n.wait.side.length < READ_SIZE))
  }

  ghost predicate KeysDistinct(s: Net) {
    forall i, j | 0 <= i < |s| && 0 <= j < |s| && i != j :: Key(s, i) != Key(s, j)
  }

  /** A tag with m's key in its priority was m's own public tag at some time. */
  ghost predicate Origin(s: Net, i: nat, m: nat)
    requires i < |s| && m < |s|
  {
    s[i].pub.prio.low == Key(s, m) ==> !s[m].pub.lab.Less(s[i].pub.lab)
  }

  /**
   * A path of blocked nodes from i to m, none with a smaller private priority than i shows, none
   * showing a smaller tag than i does, and none that has stamped a label above the one i shows.
   */
  ghost predicate CarryPath(s: Net, i: nat, m: nat, p: seq<nat>)
    requires i < |s|
  {
    && IsPath(s, p) && p[0] == i && p[|p| - 1] == m
    && (forall k | 0 <= k < |p| :: Blocked(s, p[k]) && !s[p[k]].priv.prio.Less(s[i].pub.prio))
    && (forall k | 0 <= k < |p| :: !s[p[k]].pub.Less(s[i].pub) && !s[i].pub.lab.Less(s[p[k]].priv.lab))
  }

  /** i shows the priority blocked node m stamped when m last blocked. */
  ghost predicate Shows(s: Net, i: nat, m: nat)
    requires i < |s| && m < |s|
  {
    && s[i].pub.prio.low == Key(s, m)
    && s[m].wait.BlockedOn?
    && !s[i].pub.lab.Less(s[m].priv.lab)
  }

  ghost predicate Carried(s: Net, i: nat, m: nat)
    requires i < |s| && m < |s|
  {
    Shows(s, i, m) ==>
      && s[i].pub.prio == s[m].priv.prio
      && exists p :: CarryPath(s, i, m, p)
  }

  /** From i, through labels at least i's, to a node about to supersede i's label. */
  ghost predicate StalePath(s: Net, i: nat, p: seq<nat>)
    requires i < |s|
  {
    && IsPath(s, p) && p[0] == i
    && (forall k | 0 <= k < |p| :: !s[p[k]].pub.lab.Less(s[i].pub.lab))
    && (var y := s[p[|p| - 1]]; !y.wait.BlockedOn? || s[i].pub.lab.Less(y.priv.lab))
  }

  /** From i, through blocked nodes, to the node that stamped i's label, past i's priority's owner. */
  ghost predicate LivePath(s: Net, i: nat, p: seq<nat>)
    requires i < |s|
  {
    && IsPath(s, p) && p[0] == i
    && (forall k | 0 <= k < |p| :: Blocked(s, p[k]) && !s[p[k]].pub.lab.Less(s[i].pub.lab))
    && s[p[|p| - 1]].priv.lab == s[i].pub.lab
    && (exists k :: 0 <= k < |p| && s[p[k]].priv.prio == s[i].pub.prio)
  }

  ghost predicate TagSourced(s: Net, i: nat)
    requires i < |s|
  {
    (exists p :: StalePath(s, i, p)) || (exists p :: LivePath(s, i, p))
  }

  /** No change is lost: an unflagged waiter's tag is at least its blocker's. */
  ghost predicate NothingLost(s: Net, i: nat)
    requires i < |s|
  {
    Blocked(s, i) && s[i].wait.on < |s| && !s[i].flag ==> !s[i].pub.Less(s[s[i].wait.on].pub)
  }

  /** A waiter whose next look would report a deadlock is flagged to look. */
  ghost predicate ReportPending(s: Net, i: nat)
    requires i < |s|
  {
    Blocked(s, i) && s[i].wait.on < |s| && Detects(s[i].pub, s[i].priv, s[s[i].wait.on].pub) ==> s[i].flag
  }

  ghost predicate Inv(s: Net) {
    && KeysDistinct(s)
    && (forall i | 0 <= i < |s| :: NodeOk(s, i) && TagSourced(s, i) && NothingLost(s, i) && ReportPending(s, i))
    && (forall i, m | 0 <= i < |s| && 0 <= m < |s| :: Origin(s, i, m) && Carried(s, i, m))
  }

  lemma InitInv(s: Net)
    requires Initial(s)
    ensures Inv(s)
  {
    forall i | 0 <= i < |s| ensures TagSourced(s, i) {
      assert StalePath(s, i, [i]);
    }
  }

  // ---- a reported deadlock is real, and reported by the right node

  ghost predicate LeastOnCycle(s: Net, c: seq<nat>, i: nat) {
    && (forall k | 0 <= k < |c| :: c[k] < |s|)
    && i in c && i < |s|
    && forall j | j in c && j != i :: s[i].priv.prio.Less(s[j].priv.prio)
  }

  /** The reporting node closes a cycle on which its private priority is the strict minimum. */
  lemma ReportedCycle(s: Net, i: nat) returns (c: seq<nat>)
    requires Inv(s) && Enabled(s, Transmit(i)) && Reports(s, Transmit(i))
    ensures IsCycle(s, c) && LeastOnCycle(s, c, i)
    ensures forall k | k in c :: !s[k].pub.Less(s[i].pub) && !s[i].pub.lab.Less(s[k].priv.lab)
  {
    var j := s[i].wait.on;
    assert NodeOk(s, i);
    assert Carried(s, j, i);
    assert Shows(s, j, i);
    c :| CarryPath(s, j, i, c);
    assert Edge(s, i, j);
    assert c[|c| - 1] == i;
    forall k | k in c && k != i ensures s[i].priv.prio.Less(s[k].priv.prio) {
      assert NodeOk(s, k);
      assert Key(s, k) != Key(s, i);
      U128Order(s[k].priv.prio, s[i].priv.prio, s[k].priv.prio);
    }
  }

  // ---- preservation, one property at a time

  lemma BasicsKept(s: Net, e: Event)
    requires Inv(s) && Enabled(s, e)
    ensures KeysDistinct(Apply(s, e))
    ensures forall i | 0 <= i < |s| :: NodeOk(Apply(s, e), i)
    ensures forall i | 0 <= i < |s| :: Key(Apply(s, e), i) == Key(s, i)
    ensures forall i | 0 <= i < |s| :: !Apply(s, e)[i].pub.lab.Less(s[i].pub.lab)
  {
    var s' := Apply(s, e);
    forall i | 0 <= i < |s|
      ensures NodeOk(s', i) && Key(s', i) == Key(s, i) && !s'[i].pub.lab.Less(s[i].pub.lab)
    {
      assert NodeOk(s, i);
      if e.Transmit? && e.i == i {
        var t := s[s[i].wait.on].pub;
        U128Order(s[i].priv.lab, s[i].pub.lab, t.lab);
      }
    }
  }

  lemma OriginKept(s: Net, e: Event)
    requires Inv(s) && Enabled(s, e)
    ensures forall i, m | 0 <= i < |s| && 0 <= m < |s| :: Origin(Apply(s, e), i, m)
  {
    var s' := Apply(s, e);
    BasicsKept(s, e);
    forall i, m | 0 <= i < |s| && 0 <= m < |s| ensures Origin(s', i, m) {
      assert Origin(s, i, m) && NodeOk(s, i) && NodeOk(s', i);
      assert i != m ==> Key(s, m) != Key(s, i);
      if e.Transmit? && e.i == i {
        assert Origin(s, s[i].wait.on, m);
      }
    }
  }

  /** Along a path the first node that no longer waits ends a shorter stale path. */
  lemma {:induction false} CutAtRunning(s: Net, s': Net, i: nat, p: seq<nat>, k: nat)
    requires IsPath(s, p) && |s'| == |s| && i < |s| && p[0] == i && k < |p|
    requires !Blocked(s', p[k])
    requires forall l | 0 <= l < |p| && p[l] != p[k] :: s'[p[l]].wait == s[p[l]].wait
    requires forall l | 0 <= l < |p| :: !s'[p[l]].pub.lab.Less(s'[i].pub.lab)
    ensures exists q :: StalePath(s', i, q)
  {
    if l :| 0 <= l < k && p[l] == p[k] {
      CutAtRunning(s, s', i, p, l);
    } else {
      var q := p[..k + 1];
      PrefixPath(s, p, k + 1);
      FramePath(s, s', q);
      assert StalePath(s', i, q);
    }
  }

  lemma SourceKeptByWaitChange(s: Net, s': Net, u: nat, i: nat)
    requires u < |s| && i < |s| && TagSourced(s, i) && |s'| == |s|
    requires !Blocked(s', u)
    requires forall k | 0 <= k < |s| :: s'[k].pub == s[k].pub && s'[k].priv == s[k].priv
    requires forall k | 0 <= k < |s| && k != u :: s'[k].wait == s[k].wait
    ensures TagSourced(s', i)
  {
    if p :| StalePath(s, i, p) {
      if k :| 0 <= k < |p| && p[k] == u {
        CutAtRunning(s, s', i, p, k);
      } else {
        FramePath(s, s', p);
        assert StalePath(s', i, p);
      }
    } else {
      var p :| LivePath(s, i, p);
      if k :| 0 <= k < |p| && p[k] == u {
        CutAtRunning(s, s', i, p, k);
      } else {
        FramePath(s, s', p);
        assert LivePath(s', i, p);
      }
    }
  }

  lemma SourceKeptByBlock(s: Net, e: Event, i: nat)
    requires Inv(s) && Enabled(s, e) && e.Block? && i < |s|
    ensures TagSourced(Apply(s, e), i)
  {
    var s' := Apply(s, e);
    assert TagSourced(s, i);
    if i == e.i {
      assert LivePath(s', i, [i]) by {
        assert s'[[i][0]].priv.prio == s'[i].pub.prio;
      }
    } else if p :| StalePath(s, i, p) {
      forall k | 0 <= k < |p| - 1 ensures s'[p[k]].wait == s[p[k]].wait {
        assert Edge(s, p[k], p[k + 1]);
      }
      FramePath(s, s', p);
      assert StalePath(s', i, p);
    } else {
      var p :| LivePath(s, i, p);
      FramePath(s, s', p);
      assert LivePath(s', i, p);
    }
  }

  lemma StalePathKept(s: Net, s': Net, i: nat, from: nat, p: seq<nat>)
    requires |s'| == |s| && i < |s| && from < |s| && StalePath(s, from, p)
    requires forall k | 0 <= k < |s| :: s'[k].wait == s[k].wait && s'[k].priv == s[k].priv
    requires forall k | 0 <= k < |s| :: !s'[k].pub.lab.Less(s[k].pub.lab)
    requires s'[i].pub.lab == s[from].pub.lab
    requires from == i || Edge(s, i, from)
    ensures exists q :: StalePath(s', i, q)
  {
    FramePath(s, s', p);
    if from == i {
      assert StalePath(s', i, p);
    } else {
      ConsPath(s', i, p);
      assert StalePath(s', i, [i] + p);
    }
  }

  lemma LivePathKept(s: Net, s': Net, i: nat, from: nat, p: seq<nat>)
    requires |s'| == |s| && i < |s| && from < |s| && LivePath(s, from, p)
    requires forall k | 0 <= k < |s| :: s'[k].wait == s[k].wait && s'[k].priv == s[k].priv
    requires forall k | 0 <= k < |s| :: !s'[k].pub.lab.Less(s[k].pub.lab)
    requires s'[i].pub.lab == s[from].pub.lab
    requires if from == i then s'[i].pub == s[i].pub
             else Edge(s, i, from) && s'[i].pub.prio in {s[from].pub.prio, s[i].priv.prio}
    ensures exists q :: LivePath(s', i, q)
  {
    FramePath(s, s', p);
    var m :| 0 <= m < |p| && s[p[m]].priv.prio == s[from].pub.prio;
    if from == i {
      assert s'[p[m]].priv.prio == s'[i].pub.prio;
      assert LivePath(s', i, p);
    } else {
      ConsPath(s', i, p);
      var q := [i] + p;
      assert s'[q[0]].priv.prio == s[i].priv.prio && s'[q[m + 1]].priv.prio == s[from].pub.prio;
      assert LivePath(s', i, q);
    }
  }

  lemma SourceKeptByPull(s: Net, e: Event, i: nat)
    requires Inv(s) && Enabled(s, e) && e.Transmit? && !Reports(s, e) && i < |s|
    ensures TagSourced(Apply(s, e), i)
  {
    BasicsKept(s, e);
    assert NodeOk(s, i);
    var from := if i == e.i && s[i].pub.Less(s[s[i].wait.on].pub) then s[i].wait.on else i;
    assert TagSourced(s, from);
    if p :| StalePath(s, from, p) {
      StalePathKept(s, Apply(s, e), i, from, p);
    } else {
      var p :| LivePath(s, from, p);
      LivePathKept(s, Apply(s, e), i, from, p);
    }
  }

  lemma SourceKept(s: Net, e: Event)
    requires Inv(s) && Enabled(s, e)
    ensures forall i | 0 <= i < |s| :: TagSourced(Apply(s, e), i)
  {
    forall i | 0 <= i < |s| ensures TagSourced(Apply(s, e), i) {
      if e.Block? {
        SourceKeptByBlock(s, e, i);
      } else if e.Transmit? && !Reports(s, e) {
        SourceKeptByPull(s, e, i);
      } else {
        SourceKeptByWaitChange(s, Apply(s, e), e.i, i);
      }
    }
  }

  lemma FlagsKept(s: Net, e: Event)
    requires Inv(s) && Enabled(s, e)
    ensures forall i | 0 <= i < |s| :: NothingLost(Apply(s, e), i) && ReportPending(Apply(s, e), i)
  {
    var s' := Apply(s, e);
    forall i | 0 <= i < |s| ensures NothingLost(s', i) && ReportPending(s', i) {
      assert NothingLost(s, i) && ReportPending(s, i) && NodeOk(s, i);
      if e.Block? && i == e.i {
        TagsOnlyRise(s[i].pub, s[i].priv, s[e.j].pub, e.side.Size());
      }
      if e.Transmit? && i == e.i {
        var t := s[s[i].wait.on].pub;
        TagsOnlyRise(s[i].pub, s[i].priv, t, 0);
        assert Origin(s, s[i].wait.on, i);
      }
    }
  }

  lemma CarriedKeptByBlock(s: Net, e: Event, i: nat, m: nat)
    requires Inv(s) && Enabled(s, e) && e.Block? && i < |s| && m < |s|
    ensures Carried(Apply(s, e), i, m)
  {
    var s' := Apply(s, e);
    BasicsKept(s, e);
    assert Origin(s, i, m) && Carried(s, i, m);
    if Shows(s', i, m) {
      assert i != m ==> Key(s, i) != Key(s, m);
      if i == e.i {
        assert CarryPath(s', i, m, [i]) by {
          assert NodeOk(s', i);
        }
      } else {
        assert m != e.i;
        var p :| CarryPath(s, i, m, p);
        FramePath(s, s', p);
        assert CarryPath(s', i, m, p);
      }
    }
  }

  /** A node that pulls nothing carries what it did: no other tag falls. */
  lemma CarriedByBystander(s: Net, e: Event, i: nat, m: nat)
    requires Inv(s) && Enabled(s, e) && e.Transmit? && !Reports(s, e) && i < |s| && m < |s|
    requires Apply(s, e)[i].pub == s[i].pub && Shows(Apply(s, e), i, m)
    ensures Carried(Apply(s, e), i, m)
  {
    assert Carried(s, i, m) && Shows(s, i, m);
    var p :| CarryPath(s, i, m, p);
    PulledPath(s, e, i, m, p);
  }

  lemma PulledPath(s: Net, e: Event, i: nat, m: nat, p: seq<nat>)
    requires Enabled(s, e) && e.Transmit? && !Reports(s, e) && i < |s| && CarryPath(s, i, m, p)
    requires Apply(s, e)[i].pub == s[i].pub
    ensures CarryPath(Apply(s, e), i, m, p)
  {
    var s' := Apply(s, e);
    FramePath(s, s', p);
    forall k | 0 <= k < |p|
      ensures !s'[p[k]].pub.Less(s[i].pub)
    {
      PulledUp(s, e, p[k], s[i].pub);
    }
  }

  /** Tags only rise: what no tag was above stays so. */
  lemma PulledUp(s: Net, e: Event, k: nat, t: Tag)
    requires Enabled(s, e) && e.Transmit? && !Reports(s, e) && k < |s| && !s[k].pub.Less(t)
    ensures !Apply(s, e)[k].pub.Less(t)
  {
    if k == e.i {
      var pub := Apply(s, e)[k].pub;
      TagsOnlyRise(s[k].pub, s[k].priv, s[s[k].wait.on].pub, 0);
      TagOrderIsStrictTotal(s[k].pub, pub, t);
    }
  }

  /** A node that keeps its own priority carries itself. */
  lemma CarriedByOwner(s: Net, e: Event, i: nat)
    requires Inv(s) && Enabled(s, e) && e == Transmit(i) && !Reports(s, e)
    requires s[i].pub.Less(s[s[i].wait.on].pub) && Shows(Apply(s, e), i, i)
    ensures Carried(Apply(s, e), i, i)
  {
    var s', j := Apply(s, e), s[i].wait.on;
    BasicsKept(s, e);
    assert NodeOk(s, i) && NodeOk(s', i) && Origin(s, j, i);
    if s'[i].pub.prio != s[i].priv.prio {
      assert Carried(s, j, i) && Shows(s, j, i);
      assert false;
    }
    TagOrderIsStrictTotal(s'[i].pub, s'[i].pub, s'[i].pub);
    assert CarryPath(s', i, i, [i]);
  }

  /** A priority pulled from the blocker is carried along the blocker's path. */
  lemma CarriedByPuller(s: Net, e: Event, i: nat, m: nat)
    requires Inv(s) && Enabled(s, e) && e == Transmit(i) && !Reports(s, e) && m < |s| && i != m
    requires s[i].pub.Less(s[s[i].wait.on].pub) && Shows(Apply(s, e), i, m)
    ensures Carried(Apply(s, e), i, m)
  {
    var s', j := Apply(s, e), s[i].wait.on;
    BasicsKept(s, e);
    assert NodeOk(s, i) && NodeOk(s', i) && Key(s, i) != Key(s, m);
    assert s'[i].pub == s[j].pub;
    assert Carried(s, j, m) && Shows(s, j, m);
    var p :| CarryPath(s, j, m, p);
    FramePath(s, s', p);
    ConsPath(s', i, p);
    var q := [i] + p;
    forall k | 0 <= k < |q|
      ensures !s'[q[k]].pub.Less(s'[i].pub)
    {
      if k > 0 {
        PulledUp(s, e, p[k - 1], s[j].pub);
      } else {
        TagOrderIsStrictTotal(s'[i].pub, s'[i].pub, s'[i].pub);
      }
    }
    assert CarryPath(s', i, m, q);
  }

  lemma CarriedKeptByPull(s: Net, e: Event, i: nat, m: nat)
    requires Inv(s) && Enabled(s, e) && e.Transmit? && !Reports(s, e) && i < |s| && m < |s|
    ensures Carried(Apply(s, e), i, m)
  {
    if Shows(Apply(s, e), i, m) {
      if i != e.i || !s[i].pub.Less(s[s[i].wait.on].pub) {
        CarriedByBystander(s, e, i, m);
      } else if i == m {
        CarriedByOwner(s, e, i);
      } else {
        CarriedByPuller(s, e, i, m);
      }
    }
  }

  lemma SuffixStaysOnCycle(s: Net, c: seq<nat>, p: seq<nat>, k: nat)
    requires IsCycle(s, c) && IsPath(s, p) && k < |p| && p[k] in c
    ensures p[|p| - 1] in c
  {
    var q := p[k..];
    forall l | 0 <= l < |q| - 1 ensures Edge(s, q[l], q[l + 1]) {
      assert Edge(s, p[k + l], p[k + l + 1]);
    }
    CycleIsClosed(s, c, q);
    assert q[|q| - 1] in c;
  }

  lemma CarriedKeptByRelease(s: Net, e: Event, i: nat, m: nat)
    requires Inv(s) && Enabled(s, e) && (e.Unblock? || (e.Transmit? && Reports(s, e))) && i < |s| && m < |s|
    ensures Carried(Apply(s, e), i, m)
  {
    var s' := Apply(s, e);
    if Shows(s', i, m) {
      assert Carried(s, i, m) && Shows(s, i, m);
      var p :| CarryPath(s, i, m, p);
      if k :| 0 <= k < |p| && p[k] == e.i {
        assert k < |p| - 1;
        assert Edge(s, p[k], p[k + 1]) && Blocked(s, p[k + 1]);
        // An unblocking node waits on a node that is not blocked, so this is a report.
        var c := ReportedCycle(s, e.i);
        SuffixStaysOnCycle(s, c, p, k);
        assert false;
      }
      FramePath(s, s', p);
      assert CarryPath(s', i, m, p);
    }
  }

  /** Every event keeps the invariant. */
  lemma InvKept(s: Net, e: Event)
    requires Inv(s) && Enabled(s, e)
    ensures Inv(Apply(s, e))
  {
    BasicsKept(s, e);
    OriginKept(s, e);
    SourceKept(s, e);
    FlagsKept(s, e);
    forall i, m | 0 <= i < |s| && 0 <= m < |s| ensures Carried(Apply(s, e), i, m) {
      if e.Block? {
        CarriedKeptByBlock(s, e, i, m);
      } else if e.Transmit? && !Reports(s, e) {
        CarriedKeptByPull(s, e, i, m);
      } else {
        CarriedKeptByRelease(s, e, i, m);
      }
    }
  }

  lemma {:induction false} RunKeepsInv(s0: Net, es: seq<Event>, s: Net)
    requires Inv(s0) && Run(s0, es, s)
    ensures Inv(s)
    decreases |es|
  {
    if es != [] {
      InvKept(s0, es[0]);
      RunKeepsInv(Apply(s0, es[0]), es[1..], s);
    }
  }

  lemma ReachableInv(s: Net)
    requires Reachable(s)
    ensures Inv(s)
  {
    var s0, es :| Initial(s0) && Run(s0, es, s);
    InitInv(s0);
    RunKeepsInv(s0, es, s);
  }
}

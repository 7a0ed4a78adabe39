/** Safety and progress of D4R over every run. */
module D4RTheorems {
  import opened D4RTag
  import opened D4RNetwork
  import opened D4RInvariant

  // ---- safety

  /**
   * In every run, whatever deadlocks were reported and resolved before, a report comes from a
   * node on a cycle of waiting nodes, and every cycle through it has it as strict minimum.
   */
  lemma ReportIsReal(s: Net, i: nat)
    requires Reachable(s) && Enabled(s, Transmit(i)) && Reports(s, Transmit(i))
    ensures exists c :: IsCycle(s, c) && i in c
    ensures forall c | IsCycle(s, c) && i in c :: LeastOnCycle(s, c, i)
  {
    ReachableInv(s);
    var c0 := ReportedCycle(s, i);
    forall c | IsCycle(s, c) && i in c ensures LeastOnCycle(s, c, i) {
      forall j | j in c ensures j in c0 {
        SameCycle(s, c, c0, i, j);
      }
    }
  }

  /** Two cycles through one node have the same members. */
  lemma SameCycle(s: Net, c: seq<nat>, c0: seq<nat>, i: nat, j: nat)
    requires IsCycle(s, c) && IsCycle(s, c0) && i in c && i in c0 && j in c
    ensures j in c0
  {
    var a :| 0 <= a < |c| && c[a] == i;
    var b :| 0 <= b < |c| && c[b] == j;
    SuffixStaysOnCycle(s, c0, c, a);
    NextIsOnCycle(s, c0, c[|c| - 1], c[0]);
    CycleIsClosed(s, c0, c);
  }

  /** The exception is thrown only when every node of the deadlock waits to read. */
  lemma ThrowMeansAllReading(s: Net, i: nat, c: seq<nat>, j: nat)
    requires Reachable(s) && Enabled(s, Transmit(i)) && Reports(s, Transmit(i))
    requires s[i].wait.side.Reading? && IsCycle(s, c) && i in c && j in c
    ensures Blocked(s, j) && s[j].wait.side.Reading?
  {
    ReachableInv(s);
    ReportIsReal(s, i);
    CycleIsBlocked(s, c, j);
    assert NodeOk(s, i) && NodeOk(s, j);
  }

  /**
   * A report ends the wait of the node that makes it, and of no other: with the exception when
   * every node of the cycle waits to read, and else by growing a shortest queue written on it.
   */
  lemma ReportOutcome(s: Net, c: seq<nat>, i: nat)
    requires Reachable(s) && Enabled(s, Transmit(i)) && Reports(s, Transmit(i))
    requires IsCycle(s, c) && i in c
    ensures forall j | j in c :: j < |s| && s[j].wait.BlockedOn?
    ensures Apply(s, Transmit(i))[i].wait.Failed? <==> forall j | j in c :: s[j].wait.side.Reading?
    ensures Apply(s, Transmit(i))[i].wait.Running? <==> exists j :: j in c && s[j].wait.side.Writing?
    ensures forall j | j in c && s[j].wait.side.Writing? ::
              s[i].wait.side.Writing? && s[i].wait.side.length <= s[j].wait.side.length
    ensures forall k | 0 <= k < |s| && k != i :: Apply(s, Transmit(i))[k].wait == s[k].wait
  {
    ReachableInv(s);
    ReportIsReal(s, i);
    forall j | j in c
      ensures Blocked(s, j) && NodeOk(s, j)
      ensures s[i].wait.side.Reading? ==> s[j].wait.side.Reading?
    {
      CycleIsBlocked(s, c, j);
      if s[i].wait.side.Reading? {
        ThrowMeansAllReading(s, i, c, j);
      }
    }
  }

  /** A node fails in a report of its own, made while it waits to read, and in no other step; and it stays so. */
  lemma OnlyReportsFail(s: Net, e: Event, k: nat)
    requires Enabled(s, e) && k < |s|
    ensures Apply(s, e)[k].wait.Failed? <==>
              s[k].wait.Failed? || (e == Transmit(k) && Reports(s, e) && s[k].wait.side.Reading?)
    ensures Apply(s, e)[k].wait != s[k].wait ==> k == e.i && (e.Block? || e.Unblock? || Reports(s, e))
    ensures e == Unblock(k) ==> Apply(s, e)[k].wait.Running?
  {
  }

  // ---- convergence

  /** No node of the cycle would change its tag by looking at the node it waits on. */
  ghost predicate Settled(s: Net, c: seq<nat>) {
    && IsCycle(s, c)
    && (forall k | 0 <= k < |c| - 1 :: !s[c[k]].pub.Less(s[c[k + 1]].pub))
    && !s[c[|c| - 1]].pub.Less(s[c[0]].pub)
  }

  lemma {:induction false} DescendingTags(s: Net, c: seq<nat>, a: nat, b: nat)
    requires Settled(s, c) && a <= b < |c|
    ensures !s[c[a]].pub.Less(s[c[b]].pub)
    decreases b - a
  {
    if a < b {
      DescendingTags(s, c, a, b - 1);
      assert !s[c[b - 1]].pub.Less(s[c[b - 1 + 1]].pub);
      var x, y, z := s[c[a]].pub, s[c[b - 1]].pub, s[c[b]].pub;
      TagOrderIsStrictTotal(x, y, z);
      TagOrderIsStrictTotal(z, x, y);
      TagOrderIsStrictTotal(y, z, x);
      TagOrderIsStrictTotal(x, z, y);
    }
  }

  lemma SettledTagsAgree(s: Net, c: seq<nat>, a: nat, b: nat)
    requires Settled(s, c) && a < |c| && b < |c|
    ensures s[c[a]].pub == s[c[b]].pub
  {
    var n := |c| - 1;
    DescendingTags(s, c, 0, a);
    DescendingTags(s, c, a, n);
    DescendingTags(s, c, 0, b);
    DescendingTags(s, c, b, n);
    var x, y, z, w := s[c[0]].pub, s[c[a]].pub, s[c[b]].pub, s[c[n]].pub;
    TagOrderIsStrictTotal(x, y, w);
    TagOrderIsStrictTotal(w, x, y);
    TagOrderIsStrictTotal(y, w, x);
    TagOrderIsStrictTotal(x, z, w);
    TagOrderIsStrictTotal(w, x, z);
    TagOrderIsStrictTotal(z, w, x);
  }

  /**
   * A settled cycle agrees on one tag: its label is the greatest private label on the cycle,
   * stamped there, and its priority is the least private priority on the cycle.
   */
  lemma SettledTag(s: Net, c: seq<nat>) returns (z: nat, w: nat)
    requires Inv(s) && Settled(s, c)
    ensures z in c && w in c
    ensures forall j | j in c :: s[j].pub == Tag(s[z].priv.lab, s[w].priv.prio)
    ensures forall j | j in c :: !s[z].priv.lab.Less(s[j].priv.lab)
    ensures LeastOnCycle(s, c, w)
  {
    var i := c[0];
    assert i in c && TagSourced(s, i);
    forall j | j in c ensures s[j].pub == s[i].pub && Blocked(s, j) && NodeOk(s, j) {
      var k :| 0 <= k < |c| && c[k] == j;
      SettledTagsAgree(s, c, k, 0);
      CycleIsBlocked(s, c, j);
    }
    if p :| StalePath(s, i, p) {
      CycleIsClosed(s, c, p);
      assert false;
    }
    var p :| LivePath(s, i, p);
    CycleIsClosed(s, c, p);
    z := p[|p| - 1];
    var k :| 0 <= k < |p| && s[p[k]].priv.prio == s[i].pub.prio;
    w := p[k];
    forall j | j in c
      ensures !s[z].priv.lab.Less(s[j].priv.lab)
      ensures j != w ==> s[w].priv.prio.Less(s[j].priv.prio)
    {
      assert NodeOk(s, j);
      assert NodeOk(s, w);
      assert j != w ==> Key(s, j) != Key(s, w);
    }
  }

  /** Where no label stamped on a cycle is above the reporter's, every node shows the reporter's tag. */
  lemma ReportedTag(s: Net, c: seq<nat>, i: nat, k: nat)
    requires Inv(s) && IsCycle(s, c) && LeastOnCycle(s, c, i) && k in c && s[i].pub.prio == s[i].priv.prio
    requires forall j | j in c :: !s[j].pub.Less(s[i].pub) && !s[i].pub.lab.Less(s[j].priv.lab)
    ensures s[k].pub == s[i].pub
  {
    assert TagSourced(s, k);
    if p :| StalePath(s, k, p) {
      CycleIsClosed(s, c, p);
      var y := p[|p| - 1];
      CycleIsBlocked(s, c, y);
      U128Order(s[i].pub.lab, s[k].pub.lab, s[y].priv.lab);
      assert false;
    }
    var p :| LivePath(s, k, p);
    CycleIsClosed(s, c, p);
    assert p[|p| - 1] in c;
    U128Order(s[k].pub.lab, s[i].pub.lab, s[k].pub.lab);
    var m :| 0 <= m < |p| && s[p[m]].priv.prio == s[k].pub.prio;
    assert p[m] in c;
    U128Order(s[k].pub.prio, s[i].pub.prio, s[k].pub.prio);
  }

  /**
   * In every reachable state, a node that reports finds its deadlock settled: every node of
   * the cycle shows the very tag it shows.
   */
  lemma ReportIsSettled(s: Net, c: seq<nat>, i: nat)
    requires Reachable(s) && Enabled(s, Transmit(i)) && Reports(s, Transmit(i)) && IsCycle(s, c) && i in c
    ensures Settled(s, c) && forall j | j in c :: s[j].pub == s[i].pub
  {
    ReachableInv(s);
    var c0 := ReportedCycle(s, i);
    assert NodeOk(s, i);
    forall j | j in c ensures s[j].pub == s[i].pub {
      SameCycle(s, c, c0, i, j);
      ReportedTag(s, c0, i, j);
    }
    TagOrderIsStrictTotal(s[i].pub, s[i].pub, s[i].pub);
    forall k | 0 <= k < |c| ensures s[c[k]].pub == s[i].pub {
    }
  }

  /**
   * One and only one node reports, and only when all agree: in every reachable state, for any
   * deadlock, a look by one of its nodes reports if and only if the deadlock has settled and
   * the node is the one of least private priority. Then all its nodes show one tag, the
   * greatest label and the least priority stamped on it.
   */
  lemma ExactlyOneReports(s: Net, c: seq<nat>, i: nat)
    requires Reachable(s) && IsCycle(s, c) && i in c
    ensures Blocked(s, i) && s[i].wait.on < |s|
    ensures Detects(s[i].pub, s[i].priv, s[s[i].wait.on].pub) <==> Settled(s, c) && LeastOnCycle(s, c, i)
    ensures Detects(s[i].pub, s[i].priv, s[s[i].wait.on].pub) ==>
              && Enabled(s, Transmit(i))
              && forall j | j in c :: s[j].pub == Tag(s[i].pub.lab, s[i].priv.prio) && !s[i].pub.lab.Less(s[j].priv.lab)
    ensures Detects(s[i].pub, s[i].priv, s[s[i].wait.on].pub) ==> exists z :: z in c && s[z].priv.lab == s[i].pub.lab
  {
    ReachableInv(s);
    CycleIsBlocked(s, c, i);
    assert ReportPending(s, i);
    if Detects(s[i].pub, s[i].priv, s[s[i].wait.on].pub) {
      ReportIsSettled(s, c, i);
      ReportIsReal(s, i);
    }
    if Settled(s, c) {
      var z, w := SettledTag(s, c);
      LeastIsOne(s, c, i, w);
    }
  }

  lemma LeastIsOne(s: Net, c: seq<nat>, i: nat, w: nat)
    requires i in c && LeastOnCycle(s, c, w)
    ensures LeastOnCycle(s, c, i) <==> i == w
    ensures i < |s| && (s[i].priv.prio == s[w].priv.prio <==> i == w)
  {
    U128Order(s[i].priv.prio, s[w].priv.prio, s[i].priv.prio);
  }

  // ---- progress

  /** While a deadlock stands unreported, some node on it is flagged to look. */
  lemma DeadlockIsFlagged(s: Net, c: seq<nat>) returns (i: nat)
    requires Inv(s) && IsCycle(s, c)
    ensures i in c && Enabled(s, Transmit(i))
  {
    if k :| 0 <= k < |c| && s[c[k]].flag {
      i := c[k];
      CycleIsBlocked(s, c, i);
    } else {
      forall k | 0 <= k < |c| ensures NothingLost(s, c[k]) && ReportPending(s, c[k]) {
      }
      assert Settled(s, c) by {
        forall k | 0 <= k < |c| - 1 ensures !s[c[k]].pub.Less(s[c[k + 1]].pub) {
          assert Edge(s, c[k], c[k + 1]);
        }
      }
      var z, w := SettledTag(s, c);
      CycleIsBlocked(s, c, w);
      assert false;
    }
  }

  /** Everything a step can do to a cycle short of a report by one of its nodes. */
  ghost predicate Harmless(s: Net, c: seq<nat>, e: Event) {
    Enabled(s, e) && !(e.Transmit? && e.i in c && Reports(s, e))
  }

  lemma CycleStands(s: Net, c: seq<nat>, e: Event)
    requires IsCycle(s, c) && Harmless(s, c, e)
    ensures IsCycle(Apply(s, e), c)
  {
    forall k | 0 <= k < |c| ensures Apply(s, e)[c[k]].wait == s[c[k]].wait {
      CycleIsBlocked(s, c, c[k]);
      if e.Unblock? && e.i == c[k] {
        CycleIsBlocked(s, c, s[c[k]].wait.on);
      }
    }
    FramePath(s, Apply(s, e), c);
  }

  /** Tags a cycle can ever show: public labels now, with public or private priorities now. */
  ghost function TagsInReach(s: Net, c: seq<nat>): set<Tag>
    requires forall k | 0 <= k < |c| :: c[k] < |s|
  {
    set a, b, q | 0 <= a < |c| && 0 <= b < |c| && q in {s[c[b]].pub.prio, s[c[b]].priv.prio}
      :: Tag(s[c[a]].pub.lab, q)
  }

  ghost predicate Confined(s: Net, c: seq<nat>, tags: set<Tag>) {
    && (forall i | i in c :: i < |s| && s[i].pub in tags)
    && (forall i, t {:trigger Merge(s[i].priv.prio, t)} | i in c && t in tags :: Merge(s[i].priv.prio, t) in tags)
  }

  lemma InReach(s: Net, c: seq<nat>, a: nat, b: nat, q: U128)
    requires forall k | 0 <= k < |c| :: c[k] < |s|
    requires a < |c| && b < |c| && (q == s[c[b]].pub.prio || q == s[c[b]].priv.prio)
    ensures Tag(s[c[a]].pub.lab, q) in TagsInReach(s, c)
  {
    assert q in {s[c[b]].pub.prio, s[c[b]].priv.prio};
  }

  lemma ReachConfines(s: Net, c: seq<nat>)
    requires forall k | 0 <= k < |c| :: c[k] < |s|
    ensures Confined(s, c, TagsInReach(s, c))
  {
    var tags := TagsInReach(s, c);
    forall i | i in c ensures s[i].pub in tags {
      var k :| 0 <= k < |c| && c[k] == i;
      InReach(s, c, k, k, s[i].pub.prio);
    }
    forall i, t | i in c && t in tags ensures Merge(s[i].priv.prio, t) in tags {
      var k :| 0 <= k < |c| && c[k] == i;
      var a, b :| 0 <= a < |c| && 0 <= b < |c| && t.lab == s[c[a]].pub.lab
                  && t.prio in {s[c[b]].pub.prio, s[c[b]].priv.prio};
      InReach(s, c, a, k, s[i].priv.prio);
      InReach(s, c, a, b, t.prio);
    }
  }

  ghost function Above(tags: set<Tag>, t: Tag): nat {
    |set u | u in tags && t.Less(u)|
  }

  lemma RisingLeavesFewerAbove(tags: set<Tag>, t: Tag, t': Tag)
    requires t.Less(t') && t' in tags
    ensures Above(tags, t') < Above(tags, t)
  {
    var lo := set u | u in tags && t.Less(u);
    var hi := set u | u in tags && t'.Less(u);
    forall u | u in hi ensures u in lo {
      TagOrderIsStrictTotal(t, t', u);
    }
    TagOrderIsStrictTotal(t', t', t');
    assert hi <= lo - {t'};
    SubsetSize(hi, lo - {t'});
  }

  lemma {:induction false} SubsetSize<T>(a: set<T>, b: set<T>)
    requires a <= b
    ensures |a| <= |b|
  {
    if a != {} {
      var x :| x in a;
      SubsetSize(a - {x}, b - {x});
    }
  }

  /** Tag rises still open to the first n nodes, and flags raised among them. */
  ghost function Rises(s: Net, c: seq<nat>, tags: set<Tag>, n: nat): nat
    requires n <= |s|
  {
    if n == 0 then 0
    else Rises(s, c, tags, n - 1) + if n - 1 in c then Above(tags, s[n - 1].pub) else 0
  }

  ghost function Flags(s: Net, c: seq<nat>, n: nat): (r: nat)
    requires n <= |s|
    ensures r <= n
  {
    if n == 0 then 0
    else Flags(s, c, n - 1) + if n - 1 in c && s[n - 1].flag then 1 else 0
  }

  /** A bound on the looks the cycle's nodes can still take without a report. */
  ghost function Potential(s: Net, c: seq<nat>, tags: set<Tag>): nat {
    (|s| + 1) * Rises(s, c, tags, |s|) + Flags(s, c, |s|)
  }

  lemma {:induction false} RisesStep(s: Net, s': Net, c: seq<nat>, tags: set<Tag>, n: nat, i: nat)
    requires |s'| == |s| && n <= |s| && i < |s| && i in c
    requires forall k | k in c && k < |s| && k != i :: s'[k].pub == s[k].pub
    requires s[i].pub.Less(s'[i].pub) && s'[i].pub in tags
    ensures Rises(s', c, tags, n) + (if i < n then 1 else 0) <= Rises(s, c, tags, n)
  {
    if n > 0 {
      RisesStep(s, s', c, tags, n - 1, i);
      RisingLeavesFewerAbove(tags, s[i].pub, s'[i].pub);
    }
  }

  lemma {:induction false} RisesSame(s: Net, s': Net, c: seq<nat>, tags: set<Tag>, n: nat)
    requires |s'| == |s| && n <= |s|
    requires forall k | k in c && k < |s| :: s'[k].pub == s[k].pub
    ensures Rises(s', c, tags, n) == Rises(s, c, tags, n)
  {
    if n > 0 {
      RisesSame(s, s', c, tags, n - 1);
    }
  }

  lemma {:induction false} FlagsStep(s: Net, s': Net, c: seq<nat>, n: nat, i: nat)
    requires |s'| == |s| && n <= |s|
    requires forall k | k in c && k < |s| && k != i :: s'[k].flag == s[k].flag
    requires i in c && i < |s| ==> s[i].flag && !s'[i].flag
    ensures Flags(s', c, n) + (if i in c && i < n then 1 else 0) == Flags(s, c, n)
  {
    if n > 0 {
      FlagsStep(s, s', c, n - 1, i);
    }
  }

  /** What a step does to the nodes of a cycle that stands through it. */
  lemma CycleFrame(s: Net, c: seq<nat>, e: Event, k: nat)
    requires IsCycle(s, c) && Harmless(s, c, e) && k in c
    ensures Blocked(s, k) && s[k].wait.on in c && s[k].wait.on < |s|
    ensures Apply(s, e)[k].priv == s[k].priv
    ensures Apply(s, e)[k].pub == if k == e.i then PullTag(s[k].pub, s[k].priv, s[s[k].wait.on].pub) else s[k].pub
    ensures e.i in c ==> e.Transmit?
    ensures e.i !in c ==> Apply(s, e)[k] == s[k]
  {
    CycleIsBlocked(s, c, k);
    if e.i in c {
      CycleIsBlocked(s, c, e.i);
      CycleIsBlocked(s, c, s[e.i].wait.on);
    }
  }

  lemma ConfinedKept(s: Net, c: seq<nat>, tags: set<Tag>, e: Event)
    requires IsCycle(s, c) && Confined(s, c, tags) && Harmless(s, c, e)
    ensures Confined(Apply(s, e), c, tags)
  {
    var s' := Apply(s, e);
    forall i | i in c ensures i < |s| && s'[i].pub in tags && s'[i].priv == s[i].priv {
      CycleFrame(s, c, e, i);
      if e.i in c {
        CycleFrame(s, c, e, e.i);
        assert s[s[e.i].wait.on].pub in tags;
      }
    }
  }

  /** A look that reports nothing, by any node among `c`, uses up potential. */
  lemma LookUsesPotential(s: Net, c: seq<nat>, tags: set<Tag>, i: nat)
    requires Confined(s, c, tags) && i in c && Enabled(s, Transmit(i)) && !Reports(s, Transmit(i)) && s[i].wait.on in c
    ensures Potential(Apply(s, Transmit(i)), c, tags) + 1 <= Potential(s, c, tags)
  {
    var s', t := Apply(s, Transmit(i)), s[s[i].wait.on].pub;
    if s[i].pub.Less(t) {
      TagsOnlyRise(s[i].pub, s[i].priv, t, 0);
      assert Merge(s[i].priv.prio, t) in tags;
      RisesStep(s, s', c, tags, |s|, i);
      PotentialArithmetic(|s|, Rises(s, c, tags, |s|), Rises(s', c, tags, |s|));
    } else {
      RisesSame(s, s', c, tags, |s|);
      FlagsStep(s, s', c, |s|, i);
    }
  }

  /**
   * Each look by a cycle node uses up potential, and no step by any other node gives any
   * back: a standing deadlock is looked at boundedly often before one of its nodes reports.
   */
  lemma PotentialFalls(s: Net, c: seq<nat>, tags: set<Tag>, e: Event)
    requires IsCycle(s, c) && Confined(s, c, tags) && Harmless(s, c, e)
    ensures Potential(Apply(s, e), c, tags) + (if e.i in c then 1 else 0) <= Potential(s, c, tags)
  {
    var s' := Apply(s, e);
    forall k | k in c && k < |s|
      ensures k != e.i ==> s'[k].pub == s[k].pub
      ensures e.i !in c ==> s'[k] == s[k]
    {
      CycleFrame(s, c, e, k);
    }
    if e.i !in c {
      RisesSame(s, s', c, tags, |s|);
      FlagsStep(s, s', c, |s|, e.i);
    } else {
      CycleFrame(s, c, e, e.i);
      LookUsesPotential(s, c, tags, e.i);
    }
  }

  lemma PotentialArithmetic(n: nat, a: nat, b: nat)
    requires b + 1 <= a
    ensures (n + 1) * b + n + 1 <= (n + 1) * a
  {
    assert (n + 1) * (b + 1) <= (n + 1) * a;
  }

  /** A run in which no node of the cycle reports. */
  ghost predicate SilentRun(s: Net, c: seq<nat>, es: seq<Event>, s': Net)
    decreases |es|
  {
    if es == [] then s == s'
    else Harmless(s, c, es[0]) && SilentRun(Apply(s, es[0]), c, es[1..], s')
  }

  function LooksBy(c: seq<nat>, es: seq<Event>): nat {
    if es == [] then 0 else (if es[0].i in c then 1 else 0) + LooksBy(c, es[1..])
  }

  lemma {:induction false} SilentRunIsBounded(s: Net, c: seq<nat>, tags: set<Tag>, es: seq<Event>, s': Net)
    requires Inv(s) && IsCycle(s, c) && Confined(s, c, tags) && SilentRun(s, c, es, s')
    ensures Inv(s') && IsCycle(s', c) && Confined(s', c, tags)
    ensures LooksBy(c, es) + Potential(s', c, tags) <= Potential(s, c, tags)
    decreases |es|
  {
    if es != [] {
      InvKept(s, es[0]);
      CycleStands(s, c, es[0]);
      ConfinedKept(s, c, tags, es[0]);
      PotentialFalls(s, c, tags, es[0]);
      SilentRunIsBounded(Apply(s, es[0]), c, tags, es[1..], s');
    }
  }

  /**
   * Every deadlock is reported: from any reachable state with a cycle, whatever else the
   * network does, the cycle stands, its nodes take at most `Potential` looks without a report,
   * and as long as none has reported one of them is flagged to look.
   */
  lemma EveryDeadlockIsReported(s: Net, c: seq<nat>, es: seq<Event>, s': Net) returns (i: nat)
    requires Reachable(s) && IsCycle(s, c) && SilentRun(s, c, es, s')
    ensures IsCycle(s', c)
    ensures LooksBy(c, es) <= Potential(s, c, TagsInReach(s, c))
    ensures i in c && Enabled(s', Transmit(i))
  {
    ReachableInv(s);
    ReachConfines(s, c);
    SilentRunIsBounded(s, c, TagsInReach(s, c), es, s');
    i := DeadlockIsFlagged(s', c);
  }

  /**
   * Every deadlock settles: when its nodes have no look left but one that reports, and that is
   * after at most `Potential` looks, all of them show one tag, the greatest label and the least
   * priority stamped on it, and the node that stamped that priority is about to report.
   */
  lemma DeadlockSettles(s: Net, c: seq<nat>, es: seq<Event>, s': Net) returns (z: nat, w: nat)
    requires Reachable(s) && IsCycle(s, c) && SilentRun(s, c, es, s')
    requires LooksBy(c, es) == Potential(s, c, TagsInReach(s, c))
             || forall i | i in c && Enabled(s', Transmit(i)) :: Reports(s', Transmit(i))
    ensures Settled(s', c) && z in c && LeastOnCycle(s', c, w)
    ensures forall j | j in c :: s'[j].pub == Tag(s'[z].priv.lab, s'[w].priv.prio)
    ensures forall j | j in c :: !s'[z].priv.lab.Less(s'[j].priv.lab)
    ensures Enabled(s', Transmit(w)) && Reports(s', Transmit(w))
  {
    var tags := TagsInReach(s, c);
    w := EveryDeadlockIsReported(s, c, es, s');
    ReachableInv(s);
    ReachConfines(s, c);
    SilentRunIsBounded(s, c, tags, es, s');
    if !Reports(s', Transmit(w)) {
      PotentialFalls(s', c, tags, Transmit(w));
      assert false;
    }
    SilentRunReaches(s, c, es, s');
    ExactlyOneReports(s', c, w);
    z :| z in c && s'[z].priv.lab == s'[w].pub.lab;
  }

  lemma {:induction false} SilentRunReaches(s: Net, c: seq<nat>, es: seq<Event>, s': Net)
    requires Reachable(s) && SilentRun(s, c, es, s')
    ensures Reachable(s')
    decreases |es|
  {
    if es != [] {
      StillReachable(s, es[0]);
      SilentRunReaches(Apply(s, es[0]), c, es[1..], s');
    }
  }

  // ---- any wait graph

  /** Looks only, none of which reports: the wait graph stays as it is. */
  ghost predicate QuietRun(s: Net, es: seq<Event>, s': Net)
    decreases |es|
  {
    if es == [] then s == s'
    else es[0].Transmit? && Enabled(s, es[0]) && !Reports(s, es[0]) && QuietRun(Apply(s, es[0]), es[1..], s')
  }

  function Everyone(n: nat): (c: seq<nat>)
    ensures |c| == n && forall i | 0 <= i < n :: c[i] == i
  {
    seq(n, i requires 0 <= i < n => i)
  }

  /** In a fixed wait graph, cyclic or not, only finitely many looks are possible without a report. */
  lemma QuietRunIsBounded(s: Net, es: seq<Event>, s': Net)
    requires QuietRun(s, es, s')
    ensures |es| <= Potential(s, Everyone(|s|), TagsInReach(s, Everyone(|s|)))
  {
    ReachConfines(s, Everyone(|s|));
    QuietRunUsesPotential(s, Everyone(|s|), TagsInReach(s, Everyone(|s|)), es, s');
  }

  lemma {:induction false} QuietRunUsesPotential(s: Net, c: seq<nat>, tags: set<Tag>, es: seq<Event>, s': Net)
    requires QuietRun(s, es, s') && c == Everyone(|s|) && Confined(s, c, tags)
    ensures |es| + Potential(s', c, tags) <= Potential(s, c, tags)
    decreases |es|
  {
    if es != [] {
      var s1 := Apply(s, es[0]);
      assert c[es[0].i] in c && c[s[es[0].i].wait.on] in c;
      LookUsesPotential(s, c, tags, es[0].i);
      LookKeepsConfined(s, c, tags, es[0].i);
      QuietRunUsesPotential(s1, c, tags, es[1..], s');
    }
  }

  lemma LookKeepsConfined(s: Net, c: seq<nat>, tags: set<Tag>, i: nat)
    requires Confined(s, c, tags) && i in c && Enabled(s, Transmit(i)) && !Reports(s, Transmit(i)) && s[i].wait.on in c
    ensures Confined(Apply(s, Transmit(i)), c, tags)
  {
    var s', t := Apply(s, Transmit(i)), s[s[i].wait.on].pub;
    assert Merge(s[i].priv.prio, t) in tags;
    forall k | k in c ensures s'[k].pub in tags && s'[k].priv == s[k].priv {
    }
  }
}

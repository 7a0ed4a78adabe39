/** The node and queue objects behave as the transition system: every call is one of its events. */
module D4RObjects {
  import opened D4RNetwork
  import opened D4RTag
  import opened D4RTheorems
  import D4RNode

  type Nodes = seq<D4RNode.Node>
  type Queues = seq<D4RNode.Queue>

  /** The nodes at the two ends of each queue, by number. */
  datatype Wiring = Wiring(reader: seq<nat>, writer: seq<nat>)

  ghost predicate Distinct(ns: Nodes) {
    forall i, j | 0 <= i < j < |ns| :: ns[i] != ns[j]
  }

  /** The queues that have node `i` at this end. */
  ghost function Ends(ends: seq<nat>, i: nat): (r: seq<bool>)
    ensures |r| == |ends| && forall k | 0 <= k < |ends| :: r[k] <==> ends[k] == i
  {
    seq(|ends|, k requires 0 <= k < |ends| => ends[k] == i)
  }

  /** Of the distinct queues `qs`, node `n` lists those marked in `mine` for reading and in `theirs` for writing. */
  ghost predicate Listed(qs: Queues, n: D4RNode.Node, mine: seq<bool>, theirs: seq<bool>)
    reads n`readerList, n`writerList
  {
    && |mine| == |theirs| == |qs|
    && (forall k, l | 0 <= k < l < |qs| :: qs[k] != qs[l])
    && (forall q | q in n.readerList :: q in qs)
    && (forall q | q in n.writerList :: q in qs)
    && (forall k | 0 <= k < |qs| :: mine[k] <==> qs[k] in n.readerList)
    && (forall k | 0 <= k < |qs| :: theirs[k] <==> qs[k] in n.writerList)
  }

  /** Each node lists exactly the queues it reads and writes. */
  ghost predicate Wired(ns: Nodes, qs: Queues, w: Wiring)
    reads ns`readerList, ns`writerList
  {
    && Distinct(ns) && |w.reader| == |w.writer| == |qs|
    && (forall k | 0 <= k < |qs| :: w.reader[k] < |ns| && qs[k].reader == ns[w.reader[k]])
    && (forall k | 0 <= k < |qs| :: w.writer[k] < |ns| && qs[k].writer == ns[w.writer[k]])
    && (forall i {:trigger Ends(w.reader, i)} | 0 <= i < |ns| ::
      Listed(qs, ns[i], Ends(w.reader, i), Ends(w.writer, i)))
  }

  ghost function ReadFlags(qs: Queues): (f: seq<bool>)
    reads qs
    ensures |f| == |qs| && forall k | 0 <= k < |qs| :: f[k] == qs[k].readTagChanged
  {
    seq(|qs|, k requires 0 <= k < |qs| reads qs => qs[k].readTagChanged)
  }

  ghost function WriteFlags(qs: Queues): (f: seq<bool>)
    reads qs
    ensures |f| == |qs| && forall k | 0 <= k < |qs| :: f[k] == qs[k].writeTagChanged
  {
    seq(|qs|, k requires 0 <= k < |qs| reads qs => qs[k].writeTagChanged)
  }

  ghost predicate Tags(ns: Nodes, s: Net)
    reads ns
  {
    |s| == |ns| && forall i | 0 <= i < |ns| :: ns[i].publicTag == s[i].pub && ns[i].privateTag == s[i].priv
  }

  /** A blocked node `i` waits on queue `k`, whose flag in its direction is the node's flag. */
  ghost predicate WaitsOn(w: Wiring, reads_: seq<bool>, writes: seq<bool>, k: nat, i: nat, n: Node)
    requires |w.reader| == |w.writer| == |reads_| == |writes|
  {
    n.wait.BlockedOn? ==>
      && k < |w.reader|
      && if n.wait.side.Reading? then w.reader[k] == i && w.writer[k] == n.wait.on && writes[k] == n.flag
         else w.writer[k] == i && w.reader[k] == n.wait.on && reads_[k] == n.flag
  }

  ghost predicate Flags(w: Wiring, reads_: seq<bool>, writes: seq<bool>, at: seq<nat>, s: Net)
    requires |w.reader| == |w.writer| == |reads_| == |writes| && |at| == |s|
  {
    forall i | 0 <= i < |s| :: WaitsOn(w, reads_, writes, at[i], i, s[i])
  }

  /** The objects are in network state `s`, node `i` waiting, if it does, on queue `at[i]`. */
  ghost predicate Represents(ns: Nodes, qs: Queues, w: Wiring, at: seq<nat>, s: Net)
    reads ns, qs
  {
    Wired(ns, qs, w) && Tags(ns, s) && |at| == |s| && Flags(w, ReadFlags(qs), WriteFlags(qs), at, s)
  }

  // ---- flags as values

  /** If there was a signal, the flags marked in `ends` are raised, and no others. */
  ghost predicate Or(before: seq<bool>, signal: bool, ends: seq<bool>, after: seq<bool>) {
    |before| == |after| == |ends| && forall k | 0 <= k < |after| :: after[k] == (before[k] || (signal && ends[k]))
  }

  lemma BlockFlags(w: Wiring, rf: seq<bool>, wf: seq<bool>, at: seq<nat>, s: Net, k: nat, i: nat, j: nat, side: Side,
                   rf': seq<bool>, wf': seq<bool>)
    requires |w.reader| == |w.writer| == |rf| == |wf| && |at| == |s| && Flags(w, rf, wf, at, s) && k < |rf|
    requires Enabled(s, Block(i, j, side))
    requires if side.Reading? then w.reader[k] == i && w.writer[k] == j else w.writer[k] == i && w.reader[k] == j
    requires Or(if side.Reading? then rf else rf[k := false], true, Ends(w.reader, i), rf')
    requires Or(if side.Reading? then wf[k := false] else wf, true, Ends(w.writer, i), wf')
    ensures Flags(w, rf', wf', at[i := k], Apply(s, Block(i, j, side)))
  {
    var s', at' := Apply(s, Block(i, j, side)), at[i := k];
    forall n | 0 <= n < |s|
      ensures WaitsOn(w, rf', wf', at'[n], n, s'[n])
    {
      assert WaitsOn(w, rf, wf, at[n], n, s[n]);
      assert n != i ==> s'[n] == s[n].(flag := s[n].flag || Edge(s, n, i));
    }
  }

  lemma LookFlags(w: Wiring, rf: seq<bool>, wf: seq<bool>, at: seq<nat>, s: Net, i: nat, k: nat, rf0: seq<bool>,
      wf0: seq<bool>,
                  rf': seq<bool>, wf': seq<bool>)
    requires |w.reader| == |w.writer| == |rf| == |wf| && |at| == |s| && Flags(w, rf, wf, at, s)
    requires Enabled(s, Transmit(i)) && k == at[i] && k < |rf|
    requires if s[i].wait.side.Reading? then rf0 == rf && wf0 == wf[k := false] else rf0 == rf[k := false] && wf0 == wf
    requires var signal := s[i].pub.Less(s[s[i].wait.on].pub);
             Or(rf0, signal, Ends(w.reader, i), rf') && Or(wf0, signal, Ends(w.writer, i), wf')
    ensures Flags(w, rf', wf', at, Apply(s, Transmit(i)))
  {
    var s' := Apply(s, Transmit(i));
    forall n | 0 <= n < |s|
      ensures WaitsOn(w, rf', wf', at[n], n, s'[n])
    {
      assert WaitsOn(w, rf, wf, at[n], n, s[n]);
    }
  }

  // ---- the objects' calls

  /** Node `i` has pulled from node `j`; no other tag has changed. */
  ghost predicate Pulled(s: Net, i: nat, j: nat, s': Net)
    requires i < |s| && j < |s|
  {
    && |s'| == |s| && s'[i].priv == s[i].priv && s'[i].pub == PullTag(s[i].pub, s[i].priv, s[j].pub)
    && forall n | 0 <= n < |s| && n != i :: s'[n].pub == s[n].pub && s'[n].priv == s[n].priv
  }

  /** No node but number `i` has new tags. */
  twostate predicate OthersKept(ns: Nodes, i: nat)
    reads ns
  {
    forall n | 0 <= n < |ns| && n != i :: ns[n].publicTag == old(ns[n].publicTag)
      && ns[n].privateTag == old(ns[n].privateTag)
  }

  /** What a reader that starts to wait does to tags and flags. */
  method StartRead(q: D4RNode.Queue, ghost qs: Queues, ghost k: nat, ghost mine: seq<bool>, ghost theirs: seq<bool>)
    requires Listed(qs, q.reader, mine, theirs) && k < |qs| && q == qs[k]
    modifies q.reader`publicTag, q.reader`privateTag, qs`readTagChanged, qs`writeTagChanged
    ensures Or(old(ReadFlags(qs)), true, mine, ReadFlags(qs))
         && Or(old(WriteFlags(qs))[k := false], true, theirs, WriteFlags(qs))
    ensures q.reader.publicTag == q.reader.privateTag
         == StampTag(old(q.reader.publicTag), old(q.reader.privateTag), old(q.writer.publicTag), READ_SIZE)
  {
    q.ReadBlockStart();
    forall m | 0 <= m < |qs|
      ensures qs[m].readTagChanged == (old(qs[m].readTagChanged) || mine[m])
    {
      assert mine[m] <==> qs[m] in q.reader.readerList;
    }
    forall m | 0 <= m < |qs|
      ensures qs[m].writeTagChanged == ((m != k && old(qs[m].writeTagChanged)) || theirs[m])
    {
      assert theirs[m] <==> qs[m] in q.reader.writerList;
    }
  }

  /** What one look by a waiting reader does to tags and flags. */
  method LookRead(q: D4RNode.Queue, ghost ns: Nodes, ghost i: nat, ghost signal: bool, ghost qs: Queues, ghost k: nat,
                   ghost mine: seq<bool>, ghost theirs: seq<bool>) returns (detect: bool)
    requires Distinct(ns) && i < |ns| && q.reader == ns[i]
    requires signal == q.reader.publicTag.Less(q.writer.publicTag)
    requires Listed(qs, q.reader, mine, theirs) && k < |qs| && q == qs[k] && q.writeTagChanged
    modifies q.reader`publicTag, qs`readTagChanged, qs`writeTagChanged
    ensures var rf, wf := old(ReadFlags(qs)), old(WriteFlags(qs))[k := false];
            Or(rf, signal, mine, ReadFlags(qs)) && Or(wf, signal, theirs, WriteFlags(qs))
    ensures OthersKept(ns, i)
    ensures q.reader.publicTag == PullTag(old(q.reader.publicTag), q.reader.privateTag, old(q.writer.publicTag))
    ensures detect == Detects(old(q.reader.publicTag), q.reader.privateTag, old(q.writer.publicTag))
  {
    detect := q.ReadLook();
    forall m | 0 <= m < |qs|
      ensures qs[m].readTagChanged == (old(qs[m].readTagChanged) || (signal && mine[m]))
      ensures qs[m].writeTagChanged == ((m != k && old(qs[m].writeTagChanged)) || (signal && theirs[m]))
    {
    }
  }

  /** What a writer that starts to wait does to tags and flags. */
  method StartWrite(q: D4RNode.Queue, size: nat, ghost qs: Queues, ghost k: nat, ghost mine: seq<bool>,
      ghost theirs: seq<bool>)
    requires Listed(qs, q.writer, mine, theirs) && k < |qs| && q == qs[k]
    modifies q.writer`publicTag, q.writer`privateTag, qs`readTagChanged, qs`writeTagChanged
    ensures Or(old(ReadFlags(qs))[k := false], true, mine, ReadFlags(qs))
         && Or(old(WriteFlags(qs)), true, theirs, WriteFlags(qs))
    ensures q.writer.publicTag == q.writer.privateTag
         == StampTag(old(q.writer.publicTag), old(q.writer.privateTag), old(q.reader.publicTag), size)
  {
    q.WriteBlockStart(size);
    forall m | 0 <= m < |qs|
      ensures qs[m].readTagChanged == ((m != k && old(qs[m].readTagChanged)) || mine[m])
    {
      assert mine[m] <==> qs[m] in q.writer.readerList;
    }
    forall m | 0 <= m < |qs|
      ensures qs[m].writeTagChanged == (old(qs[m].writeTagChanged) || theirs[m])
    {
      assert theirs[m] <==> qs[m] in q.writer.writerList;
    }
  }

  /** What one look by a waiting writer does to tags and flags. */
  method LookWrite(q: D4RNode.Queue, ghost ns: Nodes, ghost i: nat, ghost signal: bool, ghost qs: Queues, ghost k: nat,
                   ghost mine: seq<bool>, ghost theirs: seq<bool>) returns (detect: bool)
    requires Distinct(ns) && i < |ns| && q.writer == ns[i]
    requires signal == q.writer.publicTag.Less(q.reader.publicTag)
    requires Listed(qs, q.writer, mine, theirs) && k < |qs| && q == qs[k] && q.readTagChanged
    modifies q.writer`publicTag, qs`readTagChanged, qs`writeTagChanged
    ensures var rf, wf := old(ReadFlags(qs))[k := false], old(WriteFlags(qs));
            Or(rf, signal, mine, ReadFlags(qs)) && Or(wf, signal, theirs, WriteFlags(qs))
    ensures OthersKept(ns, i)
    ensures q.writer.publicTag == PullTag(old(q.writer.publicTag), q.writer.privateTag, old(q.reader.publicTag))
    ensures detect == Detects(old(q.writer.publicTag), q.writer.privateTag, old(q.reader.publicTag))
  {
    detect := q.WriteLook();
    forall m | 0 <= m < |qs|
      ensures qs[m].readTagChanged == ((m != k && old(qs[m].readTagChanged)) || (signal && mine[m]))
      ensures qs[m].writeTagChanged == (old(qs[m].writeTagChanged) || (signal && theirs[m]))
    {
    }
  }

  // ---- each call is an event

  lemma BlockTags(s: Net, i: nat, j: nat, side: Side)
    requires Enabled(s, Block(i, j, side))
    ensures var s' := Apply(s, Block(i, j, side));
            && |s'| == |s| && s'[i].pub == s'[i].priv == StampTag(s[i].pub, s[i].priv, s[j].pub, side.Size())
            && forall n | 0 <= n < |s| && n != i :: s'[n].pub == s[n].pub && s'[n].priv == s[n].priv
  {
  }

  lemma LookTags(s: Net, i: nat, j: nat)
    requires Enabled(s, Transmit(i)) && s[i].wait.on == j
    ensures Pulled(s, i, j, Apply(s, Transmit(i)))
    ensures Reports(s, Transmit(i)) == Detects(s[i].pub, s[i].priv, s[j].pub)
  {
  }

  /** A reader starts to wait: the tags are those after its Block event. */
  method ReadStamps(ns: Nodes, qs: Queues, k: nat, ghost w: Wiring, ghost i: nat, ghost j: nat, ghost s: Net)
    requires Wired(ns, qs, w) && Tags(ns, s) && k < |qs| && i == w.reader[k] && j == w.writer[k]
         && Enabled(s, Block(i, j, Reading))
    modifies ns`publicTag, ns`privateTag, qs`readTagChanged, qs`writeTagChanged
    ensures Wired(ns, qs, w) && Tags(ns, Apply(s, Block(i, j, Reading)))
    ensures Or(old(ReadFlags(qs)), true, Ends(w.reader, i), ReadFlags(qs))
         && Or(old(WriteFlags(qs))[k := false], true, Ends(w.writer, i), WriteFlags(qs))
  {
    BlockTags(s, i, j, Reading);
    assert Listed(qs, ns[i], Ends(w.reader, i), Ends(w.writer, i));
    StartRead(qs[k], qs, k, Ends(w.reader, i), Ends(w.writer, i));
    forall n | 0 <= n < |ns| && n != i
      ensures ns[n].publicTag == s[n].pub && ns[n].privateTag == s[n].priv
    {
      assert ns[n] != ns[i];
    }
  }

  method ReadBlock(ns: Nodes, qs: Queues, k: nat, ghost w: Wiring, ghost at: seq<nat>, ghost s: Net)
    requires Represents(ns, qs, w, at, s) && k < |qs| && Enabled(s, Block(w.reader[k], w.writer[k], Reading))
    modifies ns`publicTag, ns`privateTag, qs`readTagChanged, qs`writeTagChanged
    ensures var i := w.reader[k]; Represents(ns, qs, w, at[i := k], Apply(s, Block(i, w.writer[k], Reading)))
  {
    ghost var i, j := w.reader[k], w.writer[k];
    ghost var rf, wf := ReadFlags(qs), WriteFlags(qs);
    ReadStamps(ns, qs, k, w, i, j, s);
    BlockFlags(w, rf, wf, at, s, k, i, j, Reading, ReadFlags(qs), WriteFlags(qs));
  }

  /** One look by a waiting reader, as far as the tags go. */
  method ReadTags(ns: Nodes, q: D4RNode.Queue, ghost qs: Queues, ghost k: nat, ghost i: nat, ghost j: nat,
                   ghost mine: seq<bool>, ghost theirs: seq<bool>, ghost s: Net, ghost s': Net) returns (detect: bool)
    requires Distinct(ns) && Tags(ns, s) && i < |ns| && j < |ns| && Pulled(s, i, j, s') && q.writeTagChanged
    requires q.reader == ns[i] && q.writer == ns[j] && Listed(qs, ns[i], mine, theirs) && k < |qs| && q == qs[k]
    modifies q.reader`publicTag, qs`readTagChanged, qs`writeTagChanged
    ensures detect == Detects(s[i].pub, s[i].priv, s[j].pub) && Tags(ns, s')
    ensures var signal := s[i].pub.Less(s[j].pub);
            && Or(old(ReadFlags(qs)), signal, mine, ReadFlags(qs))
            && Or(old(WriteFlags(qs))[k := false], signal, theirs, WriteFlags(qs))
  {
    ghost var signal := s[i].pub.Less(s[j].pub);
    detect := LookRead(q, ns, i, signal, qs, k, mine, theirs);
  }

  /** One look by a waiting reader, on objects wired together. */
  method ReadPulls(ns: Nodes, qs: Queues, k: nat, ghost w: Wiring, ghost i: nat, ghost j: nat,
                    ghost s: Net, ghost s': Net) returns (detect: bool)
    requires Wired(ns, qs, w) && Tags(ns, s) && k < |qs| && i == w.reader[k] && j == w.writer[k]
    requires Pulled(s, i, j, s') && qs[k].writeTagChanged
    modifies ns`publicTag, ns`privateTag, qs`readTagChanged, qs`writeTagChanged
    ensures detect == Detects(s[i].pub, s[i].priv, s[j].pub) && Wired(ns, qs, w) && Tags(ns, s')
    ensures var signal := s[i].pub.Less(s[j].pub);
            && Or(old(ReadFlags(qs)), signal, Ends(w.reader, i), ReadFlags(qs))
            && Or(old(WriteFlags(qs))[k := false], signal, Ends(w.writer, i), WriteFlags(qs))
  {
    assert Listed(qs, ns[i], Ends(w.reader, i), Ends(w.writer, i));
    assert ns[i] in ns;
    detect := ReadTags(ns, qs[k], qs, k, i, j, Ends(w.reader, i), Ends(w.writer, i), s, s');
  }

  method ReadLook(ns: Nodes, qs: Queues, k: nat, ghost w: Wiring, ghost at: seq<nat>, ghost s: Net)
      returns (detect: bool)
    requires Represents(ns, qs, w, at, s) && k < |qs|
    requires var i := w.reader[k]; Enabled(s, Transmit(i)) && at[i] == k && s[i].wait.side.Reading?
    modifies ns`publicTag, ns`privateTag, qs`readTagChanged, qs`writeTagChanged
    ensures var i := w.reader[k]; detect == Reports(s, Transmit(i)) && Represents(ns, qs, w, at, Apply(s, Transmit(i)))
  {
    ghost var i, j := w.reader[k], w.writer[k];
    ghost var rf, wf := ReadFlags(qs), WriteFlags(qs);
    assert s[i].wait.on == j && qs[k].writeTagChanged by {
      assert WaitsOn(w, rf, wf, at[i], i, s[i]);
    }
    LookTags(s, i, j);
    detect := ReadPulls(ns, qs, k, w, i, j, s, Apply(s, Transmit(i)));
    LookFlags(w, rf, wf, at, s, i, k, rf, wf[k := false], ReadFlags(qs), WriteFlags(qs));
  }

  /** A writer starts to wait: the tags are those after its Block event. */
  method WriteStamps(ns: Nodes, qs: Queues, k: nat, size: nat, ghost w: Wiring, ghost i: nat, ghost j: nat,
      ghost s: Net)
    requires Wired(ns, qs, w) && Tags(ns, s) && k < |qs| && i == w.writer[k] && j == w.reader[k]
         && Enabled(s, Block(i, j, Writing(size)))
    modifies ns`publicTag, ns`privateTag, qs`readTagChanged, qs`writeTagChanged
    ensures Wired(ns, qs, w) && Tags(ns, Apply(s, Block(i, j, Writing(size))))
    ensures Or(old(ReadFlags(qs))[k := false], true, Ends(w.reader, i), ReadFlags(qs))
         && Or(old(WriteFlags(qs)), true, Ends(w.writer, i), WriteFlags(qs))
  {
    BlockTags(s, i, j, Writing(size));
    assert Listed(qs, ns[i], Ends(w.reader, i), Ends(w.writer, i));
    StartWrite(qs[k], size, qs, k, Ends(w.reader, i), Ends(w.writer, i));
    forall n | 0 <= n < |ns| && n != i
      ensures ns[n].publicTag == s[n].pub && ns[n].privateTag == s[n].priv
    {
      assert ns[n] != ns[i];
    }
  }

  method WriteBlock(ns: Nodes, qs: Queues, k: nat, size: nat, ghost w: Wiring, ghost at: seq<nat>, ghost s: Net)
    requires Represents(ns, qs, w, at, s) && k < |qs| && Enabled(s, Block(w.writer[k], w.reader[k], Writing(size)))
    modifies ns`publicTag, ns`privateTag, qs`readTagChanged, qs`writeTagChanged
    ensures var i := w.writer[k]; Represents(ns, qs, w, at[i := k], Apply(s, Block(i, w.reader[k], Writing(size))))
  {
    ghost var i, j := w.writer[k], w.reader[k];
    ghost var rf, wf := ReadFlags(qs), WriteFlags(qs);
    WriteStamps(ns, qs, k, size, w, i, j, s);
    BlockFlags(w, rf, wf, at, s, k, i, j, Writing(size), ReadFlags(qs), WriteFlags(qs));
  }

  /** One look by a waiting writer, as far as the tags go. */
  method WriteTags(ns: Nodes, q: D4RNode.Queue, ghost qs: Queues, ghost k: nat, ghost i: nat, ghost j: nat,
                   ghost mine: seq<bool>, ghost theirs: seq<bool>, ghost s: Net, ghost s': Net) returns (detect: bool)
    requires Distinct(ns) && Tags(ns, s) && i < |ns| && j < |ns| && Pulled(s, i, j, s') && q.readTagChanged
    requires q.writer == ns[i] && q.reader == ns[j] && Listed(qs, ns[i], mine, theirs) && k < |qs| && q == qs[k]
    modifies q.writer`publicTag, qs`readTagChanged, qs`writeTagChanged
    ensures detect == Detects(s[i].pub, s[i].priv, s[j].pub) && Tags(ns, s')
    ensures var signal := s[i].pub.Less(s[j].pub);
            && Or(old(ReadFlags(qs))[k := false], signal, mine, ReadFlags(qs))
            && Or(old(WriteFlags(qs)), signal, theirs, WriteFlags(qs))
  {
    ghost var signal := s[i].pub.Less(s[j].pub);
    detect := LookWrite(q, ns, i, signal, qs, k, mine, theirs);
  }

  /** One look by a waiting writer, on objects wired together. */
  method WritePulls(ns: Nodes, qs: Queues, k: nat, ghost w: Wiring, ghost i: nat, ghost j: nat,
                    ghost s: Net, ghost s': Net) returns (detect: bool)
    requires Wired(ns, qs, w) && Tags(ns, s) && k < |qs| && i == w.writer[k] && j == w.reader[k]
    requires Pulled(s, i, j, s') && qs[k].readTagChanged
    modifies ns`publicTag, ns`privateTag, qs`readTagChanged, qs`writeTagChanged
    ensures detect == Detects(s[i].pub, s[i].priv, s[j].pub) && Wired(ns, qs, w) && Tags(ns, s')
    ensures var signal := s[i].pub.Less(s[j].pub);
            && Or(old(ReadFlags(qs))[k := false], signal, Ends(w.reader, i), ReadFlags(qs))
            && Or(old(WriteFlags(qs)), signal, Ends(w.writer, i), WriteFlags(qs))
  {
    assert Listed(qs, ns[i], Ends(w.reader, i), Ends(w.writer, i));
    assert ns[i] in ns;
    detect := WriteTags(ns, qs[k], qs, k, i, j, Ends(w.reader, i), Ends(w.writer, i), s, s');
  }

  method WriteLook(ns: Nodes, qs: Queues, k: nat, ghost w: Wiring, ghost at: seq<nat>, ghost s: Net)
      returns (detect: bool)
    requires Represents(ns, qs, w, at, s) && k < |qs|
    requires var i := w.writer[k]; Enabled(s, Transmit(i)) && at[i] == k && s[i].wait.side.Writing?
    modifies ns`publicTag, ns`privateTag, qs`readTagChanged, qs`writeTagChanged
    ensures var i := w.writer[k]; detect == Reports(s, Transmit(i)) && Represents(ns, qs, w, at, Apply(s, Transmit(i)))
  {
    ghost var i, j := w.writer[k], w.reader[k];
    ghost var rf, wf := ReadFlags(qs), WriteFlags(qs);
    assert s[i].wait.on == j && qs[k].readTagChanged by {
      assert WaitsOn(w, rf, wf, at[i], i, s[i]);
    }
    LookTags(s, i, j);
    detect := WritePulls(ns, qs, k, w, i, j, s, Apply(s, Transmit(i)));
    LookFlags(w, rf, wf, at, s, i, k, rf[k := false], wf, ReadFlags(qs), WriteFlags(qs));
  }

  // ---- runs

  datatype Call =
    | ReadBlocks(k: nat)
    | ReadLooks(k: nat)
    | WriteBlocks(k: nat, size: nat)
    | WriteLooks(k: nat)
    | Unblocks(i: nat)

  /** The event of the transition system that a call is. */
  ghost function EventOf(w: Wiring, call: Call): Event
    requires |w.reader| == |w.writer| && (call.Unblocks? || call.k < |w.reader|)
  {
    match call
    case ReadBlocks(k) => Block(w.reader[k], w.writer[k], Reading)
    case ReadLooks(k) => Transmit(w.reader[k])
    case WriteBlocks(k, size) => Block(w.writer[k], w.reader[k], Writing(size))
    case WriteLooks(k) => Transmit(w.writer[k])
    case Unblocks(i) => Unblock(i)
  }

  /** The call is the next thing its node does: it runs and blocks, or it waits on that very queue. */
  ghost predicate Ready(w: Wiring, at: seq<nat>, s: Net, call: Call) {
    && |w.reader| == |w.writer| && |at| == |s| && (call.Unblocks? || call.k < |w.reader|)
    && Enabled(s, EventOf(w, call))
    && (call.ReadLooks? ==> at[w.reader[call.k]] == call.k && s[w.reader[call.k]].wait.side.Reading?)
    && (call.WriteLooks? ==> at[w.writer[call.k]] == call.k && s[w.writer[call.k]].wait.side.Writing?)
  }

  ghost function PlaceAfter(w: Wiring, at: seq<nat>, s: Net, call: Call): (r: seq<nat>)
    requires Ready(w, at, s, call)
    ensures |r| == |s|
  {
    match call
    case ReadBlocks(k) => at[w.reader[k] := k]
    case WriteBlocks(k, _) => at[w.writer[k] := k]
    case _ => at
  }

  /** Leaving a wait changes no tag and no flag. */
  lemma UnblockKeeps(ns: Nodes, qs: Queues, w: Wiring, at: seq<nat>, s: Net, i: nat)
    requires Represents(ns, qs, w, at, s) && Enabled(s, Unblock(i))
    ensures Represents(ns, qs, w, at, Apply(s, Unblock(i)))
  {
    var s' := Apply(s, Unblock(i));
    forall n | 0 <= n < |s|
      ensures WaitsOn(w, ReadFlags(qs), WriteFlags(qs), at[n], n, s'[n])
    {
      assert WaitsOn(w, ReadFlags(qs), WriteFlags(qs), at[n], n, s[n]);
    }
  }

  /** One call: the objects move as the network does, and report exactly when it does. */
  method Perform(ns: Nodes, qs: Queues, call: Call, ghost w: Wiring, ghost at: seq<nat>, ghost s: Net)
      returns (detect: bool)
    requires Represents(ns, qs, w, at, s) && Ready(w, at, s, call)
    modifies ns`publicTag, ns`privateTag, qs`readTagChanged, qs`writeTagChanged
    ensures Represents(ns, qs, w, PlaceAfter(w, at, s, call), Apply(s, EventOf(w, call)))
    ensures detect == Reports(s, EventOf(w, call))
    ensures detect && Reachable(s) ==> exists c :: IsCycle(s, c) && EventOf(w, call).i in c
  {
    if Reachable(s) && Reports(s, EventOf(w, call)) {
      ReportIsReal(s, EventOf(w, call).i);
    }
    detect := false;
    match call
    case ReadBlocks(k) => ReadBlock(ns, qs, k, w, at, s);
    case ReadLooks(k) => detect := ReadLook(ns, qs, k, w, at, s);
    case WriteBlocks(k, size) => WriteBlock(ns, qs, k, size, w, at, s);
    case WriteLooks(k) => detect := WriteLook(ns, qs, k, w, at, s);
    case Unblocks(i) => UnblockKeeps(ns, qs, w, at, s, i);
  }

  ghost predicate AllReady(w: Wiring, at: seq<nat>, s: Net, calls: seq<Call>)
    decreases |calls|
  {
    calls == [] ||
    (Ready(w, at, s, calls[0])
      && AllReady(w, PlaceAfter(w, at, s, calls[0]), Apply(s, EventOf(w, calls[0])), calls[1..]))
  }

  /** The network after all calls. */
  ghost function After(w: Wiring, at: seq<nat>, s: Net, calls: seq<Call>): Net
    requires AllReady(w, at, s, calls)
    decreases |calls|
  {
    if calls == [] then s
    else After(w, PlaceAfter(w, at, s, calls[0]), Apply(s, EventOf(w, calls[0])), calls[1..])
  }

  /** Each call reports exactly when the network does. */
  ghost predicate Reported(w: Wiring, at: seq<nat>, s: Net, calls: seq<Call>, detects: seq<bool>)
    requires AllReady(w, at, s, calls)
    decreases |calls|
  {
    && |detects| == |calls|
    && (calls != [] ==>
          && detects[0] == Reports(s, EventOf(w, calls[0]))
          && Reported(w, PlaceAfter(w, at, s, calls[0]), Apply(s, EventOf(w, calls[0])), calls[1..], detects[1..]))
  }

  /** Any calls in any order: the objects stay in a reachable state of the network, so its theorems hold of them. */
  method Play(ns: Nodes, qs: Queues, calls: seq<Call>, ghost w: Wiring, ghost at: seq<nat>, ghost s: Net)
      returns (detects: seq<bool>, ghost at': seq<nat>)
    requires Represents(ns, qs, w, at, s) && Reachable(s) && AllReady(w, at, s, calls)
    modifies ns`publicTag, ns`privateTag, qs`readTagChanged, qs`writeTagChanged
    ensures Represents(ns, qs, w, at', After(w, at, s, calls)) && Reachable(After(w, at, s, calls))
    ensures Reported(w, at, s, calls, detects)
    decreases |calls|
  {
    detects, at' := [], at;
    if calls != [] {
      ghost var e := EventOf(w, calls[0]);
      var now := Perform(ns, qs, calls[0], w, at, s);
      StillReachable(s, e);
      var later;
      later, at' := Play(ns, qs, calls[1..], w, PlaceAfter(w, at, s, calls[0]), Apply(s, e));
      detects := [now] + later;
      assert detects[1..] == later;
    }
  }

  /** Fresh nodes, wired together in any way, are a network in which no node has blocked. */
  lemma FreshNodes(ns: Nodes, qs: Queues, w: Wiring, at: seq<nat>, s: Net)
    requires Wired(ns, qs, w) && Tags(ns, s) && |at| == |s| && Initial(s)
    ensures Represents(ns, qs, w, at, s) && Reachable(s)
  {
    assert Run(s, [], s);
  }
}

/**
 * Nodes and queues as the objects that carry the D4R tags and tag-changed flags.
 * Locks are left out: each method is one atomic step.
 */
module D4RNode {
  import opened Helpers
  import opened D4RTag

  class Queue {
    const reader: Node
    const writer: Node
    var readTagChanged: bool
    var writeTagChanged: bool

    constructor (r: Node, w: Node)
      ensures reader == r && writer == w && !readTagChanged && !writeTagChanged
    {
      reader, writer := r, w;
      readTagChanged, writeTagChanged := false, false;
    }

    /** A reader starts to wait: stamp a fresh tag above the writer's. */
    method ReadBlockStart()
      modifies this`writeTagChanged, reader`publicTag, reader`privateTag
      modifies (set q | q in reader.readerList)`readTagChanged, (set q | q in reader.writerList)`writeTagChanged
      ensures reader.publicTag
           == StampTag(old(reader.publicTag), old(reader.privateTag), old(writer.publicTag), READ_SIZE)
      ensures reader.privateTag == reader.publicTag && reader.privateTag.prio.high == 0xFFFF_FFFF
      ensures reader.Signalled()
      ensures writeTagChanged == (this in reader.writerList)
    {
      writeTagChanged := false;
      reader.Block(writer.publicTag, READ_SIZE);
    }

    /** One pass of the reader's wait loop after the writer's tag changed; true means throw. */
    method ReadLook() returns (detect: bool)
      requires writeTagChanged
      modifies this`writeTagChanged, reader`publicTag
      modifies (set q | q in reader.readerList)`readTagChanged, (set q | q in reader.writerList)`writeTagChanged
      ensures reader.publicTag == PullTag(old(reader.publicTag), reader.privateTag, old(writer.publicTag))
      ensures detect == Detects(old(reader.publicTag), reader.privateTag, old(writer.publicTag))
      ensures writeTagChanged == (old(reader.publicTag).Less(old(writer.publicTag)) && this in reader.writerList)
      ensures if old(reader.publicTag).Less(old(writer.publicTag)) then reader.Signalled()
              else forall q | q in reader.readerList || q in reader.writerList ::
                     q.readTagChanged == old(q.readTagChanged)
                       && (q != this ==> q.writeTagChanged == old(q.writeTagChanged))
    {
      writeTagChanged := false;
      detect := reader.Transmit(writer.publicTag);
    }

    /** A writer starts to wait on a queue of this length. */
    method WriteBlockStart(qsize: nat)
      modifies this`readTagChanged, writer`publicTag, writer`privateTag
      modifies (set q | q in writer.readerList)`readTagChanged, (set q | q in writer.writerList)`writeTagChanged
      ensures writer.publicTag == StampTag(old(writer.publicTag), old(writer.privateTag), old(reader.publicTag), qsize)
      ensures writer.privateTag == writer.publicTag && writer.privateTag.prio.high == qsize
      ensures writer.Signalled()
      ensures readTagChanged == (this in writer.readerList)
    {
      readTagChanged := false;
      writer.Block(reader.publicTag, qsize);
    }

    /** One pass of the writer's wait loop after the reader's tag changed; true means grow. */
    method WriteLook() returns (detect: bool)
      requires readTagChanged
      modifies this`readTagChanged, writer`publicTag
      modifies (set q | q in writer.readerList)`readTagChanged, (set q | q in writer.writerList)`writeTagChanged
      ensures writer.publicTag == PullTag(old(writer.publicTag), writer.privateTag, old(reader.publicTag))
      ensures detect == Detects(old(writer.publicTag), writer.privateTag, old(reader.publicTag))
      ensures readTagChanged == (old(writer.publicTag).Less(old(reader.publicTag)) && this in writer.readerList)
      ensures if old(writer.publicTag).Less(old(reader.publicTag)) then writer.Signalled()
              else forall q | q in writer.readerList || q in writer.writerList ::
                     q.writeTagChanged == old(q.writeTagChanged)
                       && (q != this ==> q.readTagChanged == old(q.readTagChanged))
    {
      readTagChanged := false;
      detect := writer.Transmit(reader.publicTag);
    }
  }

  class Node {
    var publicTag: Tag
    var privateTag: Tag
    var readerList: seq<Queue>
    var writerList: seq<Queue>

    constructor (key: nat)
      ensures publicTag == privateTag == InitialTag(key)
      ensures publicTag == Tag(U128(0, key), U128(0xFFFF_FFFF_FFFF_FFFF, key))
      ensures readerList == writerList == []
    {
      publicTag, privateTag := InitialTag(key), InitialTag(key);
      readerList, writerList := [], [];
    }

    /** Every queue this node reads has seen its reader's tag change, and likewise for writing. */
    ghost predicate Signalled()
      reads this, readerList, writerList
    {
      && (forall q | q in readerList :: q.readTagChanged)
      && (forall q | q in writerList :: q.writeTagChanged)
    }

    method AddReader(q: Queue)
      modifies this`readerList
      ensures readerList == old(readerList) + [q]
    {
      readerList := readerList + [q];
    }

    method AddWriter(q: Queue)
      modifies this`writerList
      ensures writerList == old(writerList) + [q]
    {
      writerList := writerList + [q];
    }

    method SignalTagChanged()
      modifies (set q | q in readerList)`readTagChanged, (set q | q in writerList)`writeTagChanged
      ensures Signalled()
    {
      var i := 0;
      while i < |readerList|
        invariant i <= |readerList|
        invariant forall k | 0 <= k < i :: readerList[k].readTagChanged
        invariant forall q: Queue :: old(allocated(q)) ==> q.writeTagChanged == old(q.writeTagChanged)
      {
        readerList[i].readTagChanged := true;
        i := i + 1;
      }
      i := 0;
      while i < |writerList|
        invariant i <= |writerList|
        invariant forall k | 0 <= k < i :: writerList[k].writeTagChanged
        invariant forall q | q in readerList :: q.readTagChanged
      {
        writerList[i].writeTagChanged := true;
        i := i + 1;
      }
    }

    method Block(t: Tag, qsize: nat)
      modifies this`publicTag, this`privateTag
      modifies (set q | q in readerList)`readTagChanged, (set q | q in writerList)`writeTagChanged
      ensures publicTag == privateTag == StampTag(old(publicTag), old(privateTag), t, qsize)
      ensures publicTag.prio == U128(qsize, old(privateTag.prio.low)) && publicTag.lab.low == old(privateTag.lab.low)
      ensures publicTag.lab.high > old(publicTag.lab.high) && publicTag.lab.high > t.lab.high
      ensures publicTag.lab.high - 1 in {old(publicTag.lab.high), t.lab.high}
      ensures Signalled()
    {
      privateTag := privateTag.(prio := privateTag.prio.(high := qsize));
      privateTag := privateTag.(lab := privateTag.lab.(high := Max(publicTag.lab.high, t.lab.high) + 1));
      publicTag := privateTag;
      SignalTagChanged();
    }

    method Transmit(t: Tag) returns (detect: bool)
      modifies this`publicTag
      modifies (set q | q in readerList)`readTagChanged, (set q | q in writerList)`writeTagChanged
      ensures publicTag == PullTag(old(publicTag), privateTag, t)
      ensures detect == Detects(old(publicTag), privateTag, t)
      ensures if old(publicTag).Less(t) then Signalled()
              else forall q | q in readerList || q in writerList ::
                     q.readTagChanged == old(q.readTagChanged) && q.writeTagChanged == old(q.writeTagChanged)
    {
      if publicTag.Less(t) {
        var priority := MinU128(privateTag.prio, t.prio);
        publicTag := t;
        publicTag := publicTag.(prio := priority);
        SignalTagChanged();
      } else if publicTag == t {
        return publicTag.prio == privateTag.prio;
      }
      return false;
    }
  }
}

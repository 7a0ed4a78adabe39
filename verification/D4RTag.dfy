/** Tags of the D4R deadlock detection algorithm, their order, and the two tag rules. */
module D4RTag {
  import opened Helpers

  /** A pair of words compared high word first; the words are unbounded here. */
  datatype U128 = U128(high: nat, low: nat) {
    predicate Less(other: U128) {
      if high == other.high then low < other.low else high < other.high
    }
  }

  function MinU128(a: U128, b: U128): (r: U128)
    ensures r == a || r == b
    ensures !a.Less(r) && !b.Less(r)
  {
    if b.Less(a) then b else a
  }

  /** `lab` is the label (count, key); `prio` the priority (queue size, key of the blocked node). */
  datatype Tag = Tag(lab: U128, prio: U128) {

    /** Labels compare upwards; equal labels are ordered by falling priority. */
    predicate Less(t: Tag) {
      if lab == t.lab then t.prio.Less(prio) else lab.Less(t.lab)
    }
  }

  /** The queue size a reader blocks with: -1 passed as an `unsigned`. */
  const READ_SIZE: nat := 0xFFFF_FFFF

  /** The tag a fresh node with this key carries, twice. */
  function InitialTag(key: nat): Tag {
    Tag(U128(0, key), U128(0xFFFF_FFFF_FFFF_FFFF, key))
  }

  /** The tag a node stamps when it blocks on a node showing `t`. */
  function StampTag(pub: Tag, priv: Tag, t: Tag, qsize: nat): Tag {
    Tag(U128(Max(pub.lab.high, t.lab.high) + 1, priv.lab.low), U128(qsize, priv.prio.low))
  }

  /** Tag `t` with its priority lowered to at most `own`. */
  function Merge(own: U128, t: Tag): Tag {
    Tag(t.lab, MinU128(own, t.prio))
  }

  /** The public tag after a blocked node has looked at its blocker's tag `t`. */
  function PullTag(pub: Tag, priv: Tag, t: Tag): Tag {
    if pub.Less(t) then Merge(priv.prio, t) else pub
  }

  /** Does looking at `t` report a deadlock? */
  predicate Detects(pub: Tag, priv: Tag, t: Tag) {
    pub == t && pub.prio == priv.prio
  }

  lemma U128Order(a: U128, b: U128, c: U128)
    ensures !a.Less(a)
    ensures a.Less(b) ==> !b.Less(a)
    ensures a.Less(b) && b.Less(c) ==> a.Less(c)
    ensures a != b ==> a.Less(b) || b.Less(a)
  {
  }

  /** The order is strict and total, so the greatest tag on a cycle is unique. */
  lemma TagOrderIsStrictTotal(a: Tag, b: Tag, c: Tag)
    ensures !a.Less(a)
    ensures a.Less(b) ==> !b.Less(a)
    ensures a.Less(b) && b.Less(c) ==> a.Less(c)
    ensures a.Less(b) || a == b || b.Less(a)
  {
    U128Order(a.lab, b.lab, c.lab);
    U128Order(c.prio, b.prio, a.prio);
  }

  /** Stamping beats both tags it has seen, and pulling never falls below either tag. */
  lemma TagsOnlyRise(pub: Tag, priv: Tag, t: Tag, qsize: nat)
    ensures pub.Less(StampTag(pub, priv, t, qsize)) && t.Less(StampTag(pub, priv, t, qsize))
    ensures !PullTag(pub, priv, t).Less(t) && !PullTag(pub, priv, t).Less(pub)
    ensures PullTag(pub, priv, t) != pub ==> pub.Less(PullTag(pub, priv, t))
  {
    var p := MinU128(priv.prio, t.prio);
    U128Order(p, t.prio, p);
    TagOrderIsStrictTotal(pub, t, Tag(t.lab, p));
  }
}

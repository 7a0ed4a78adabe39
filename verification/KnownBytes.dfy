/** Sequences of bytes of which some may not be known. */
module KnownBytes {
  import opened Helpers
  import opened RingRows

  /** Bytes of which some are not known: cells that were handed out and not stored to. */
  type Cells = seq<Option<Byte>>

  function Known(s: seq<Byte>): (p: Cells)
    ensures |p| == |s| && forall i | 0 <= i < |s| :: p[i] == Some(s[i])
  {
    seq(|s|, i requires 0 <= i < |s| => Some(s[i]))
  }

  function Unknown(n: nat): (p: Cells)
    ensures |p| == n && forall i | 0 <= i < n :: p[i] == None
  {
    seq(n, _ => None)
  }

  /** At least `n` cells, the added ones unknown. */
  function Widen(p: Cells, n: nat): (r: Cells)
    ensures |r| == Max(|p|, n)
  {
    if n <= |p| then p else p + Unknown(n - |p|)
  }

  predicate Matches(s: seq<Byte>, p: Cells) {
    |s| == |p| && forall i | 0 <= i < |s| :: p[i] == None || p[i] == Some(s[i])
  }

  lemma SliceMatches(s: seq<Byte>, p: Cells, n: nat)
    requires Matches(s, p) && n <= |s|
    ensures Matches(s[..n], p[..n]) && Matches(s[n..], p[n..])
  {
  }

  lemma AppendMatches(s: seq<Byte>, p: Cells, t: seq<Byte>, u: Cells)
    requires Matches(s, p) && Matches(t, u)
    ensures Matches(s + t, p + u)
  {
  }

  /** A sequence that has grown by `n` bytes, known or not. */
  lemma PutMatches(s: seq<Byte>, s': seq<Byte>, p: Cells, added: Option<seq<Byte>>, n: nat)
    requires Matches(s, p) && s <= s' && |s'| == |s| + n
         && (added.Some? ==> |added.value| == n && s' == s + added.value)
    ensures Matches(s', p + if added.Some? then Known(added.value) else Unknown(n))
  {
  }

  lemma OverlayMatches(s: seq<Byte>, p: Cells, off: nat, bytes: seq<Byte>)
    requires Matches(s, p) && off + |bytes| <= |s|
    ensures Matches(Overlay(s, off, bytes), Overlay(p, off, Known(bytes)))
  {
  }

  lemma Regroup<T>(before: seq<T>, g: seq<T>, gs: seq<T>, between: seq<T>, t: seq<T>, ts: seq<T>, after: seq<T>)
    requires before + g == t + between && between + gs == ts + after
    ensures before + (g + gs) == (t + ts) + after
  {
    assert before + (g + gs) == (before + g) + gs == t + (between + gs) == (t + ts) + after;
  }
}

/** Lists of segments and their concatenation. */
module Segments {
  function Flatten<T>(segments: seq<seq<T>>): seq<T> {
    if segments == [] then [] else segments[0] + Flatten(segments[1..])
  }

  lemma {:induction false} FlattenConcat<T>(a: seq<seq<T>>, b: seq<seq<T>>)
    ensures Flatten(a + b) == Flatten(a) + Flatten(b)
    decreases |a|
  {
    if a == [] {
      assert a + b == b;
    } else {
      FlattenConcat(a[1..], b);
      assert (a + b)[1..] == a[1..] + b;
      assert a[0] + (Flatten(a[1..]) + Flatten(b)) == a[0] + Flatten(a[1..]) + Flatten(b);
    }
  }

  lemma FlattenSnoc<T>(segments: seq<seq<T>>, i: nat)
    requires i < |segments|
    ensures Flatten(segments[..i + 1]) == Flatten(segments[..i]) + segments[i]
  {
    assert segments[..i + 1] == segments[..i] + [segments[i]];
    FlattenConcat(segments[..i], [segments[i]]);
    var one := [segments[i]];
    assert |one[1..]| == 0;
    assert Flatten(one) == segments[i] + Flatten(one[1..]);
  }
}

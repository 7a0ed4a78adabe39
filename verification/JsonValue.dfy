/** JSON values and the tree builder that the parser's callbacks drive. */
module JsonValue {
  import opened Helpers
  import opened JsonTable

  /** Text is a sequence of bytes, each a character with a code below 256. */
  datatype Value =
    | Null
    | Bool(b: bool)
    | Number(n: int)
    | Float(literal: string)
    | Str(s: string)
    | Array(elems: seq<Value>)
    | Object(members: seq<Member>)

  datatype Member = Member(key: string, value: Value)

  /** Member order is iteration order; `Put` keeps it and adds new keys at the end. */
  function Find(ms: seq<Member>, key: string): Option<Value> {
    if ms == [] then None
    else if ms[0].key == key then Some(ms[0].value)
    else Find(ms[1..], key)
  }

  function Put(ms: seq<Member>, key: string, v: Value): seq<Member> {
    if ms == [] then [Member(key, v)]
    else if ms[0].key == key then [Member(key, v)] + ms[1..]
    else [ms[0]] + Put(ms[1..], key, v)
  }

  function Keys(ms: seq<Member>): seq<string> {
    seq(|ms|, i requires 0 <= i < |ms| => ms[i].key)
  }

  lemma KeysCons(m: Member, ms: seq<Member>)
    ensures Keys([m] + ms) == [m.key] + Keys(ms)
  {
  }

  lemma {:induction false} PutKeys(ms: seq<Member>, key: string, v: Value)
    ensures Keys(Put(ms, key, v)) == Keys(ms) + if key in Keys(ms) then [] else [key]
  {
    if ms == [] {
      KeysCons(Member(key, v), []);
    } else {
      assert ms == [ms[0]] + ms[1..];
      KeysCons(ms[0], ms[1..]);
      if ms[0].key == key {
        KeysCons(Member(key, v), ms[1..]);
        assert Keys(ms)[0] == key;
      } else {
        PutKeys(ms[1..], key, v);
        KeysCons(ms[0], Put(ms[1..], key, v));
        assert key in Keys(ms) <==> key in Keys(ms[1..]);
      }
    }
  }

  lemma FindCons(m: Member, ms: seq<Member>, key: string)
    ensures Find([m] + ms, key) == if m.key == key then Some(m.value) else Find(ms, key)
  {
    assert ([m] + ms)[1..] == ms;
  }

  lemma {:induction false} PutFinds(ms: seq<Member>, key: string, v: Value, other: string)
    ensures Find(Put(ms, key, v), other) == if other == key then Some(v) else Find(ms, other)
  {
    if ms == [] {
      FindCons(Member(key, v), [], other);
    } else if ms[0].key == key {
      FindCons(Member(key, v), ms[1..], other);
    } else {
      PutFinds(ms[1..], key, v, other);
      FindCons(ms[0], Put(ms[1..], key, v), other);
    }
  }

  /** `Put` binds its key and no other, and keeps the keys in place. */
  lemma PutBinds(ms: seq<Member>, key: string, v: Value, other: string)
    ensures Find(Put(ms, key, v), other) == if other == key then Some(v) else Find(ms, other)
    ensures Keys(Put(ms, key, v)) == Keys(ms) + if key in Keys(ms) then [] else [key]
  {
    PutFinds(ms, key, v, other);
    PutKeys(ms, key, v);
  }

  /** Open containers, innermost last, and the keys still waiting for their values. */
  datatype Builder = Builder(stack: seq<Value>, keys: seq<string>) {

    function Top(): Value
      requires stack != []
    {
      stack[|stack| - 1]
    }

    predicate InObject() {
      stack != [] && Top().Object?
    }

    predicate InArray() {
      stack != [] && Top().Array?
    }

    function Push(v: Value): Builder {
      Builder(stack + [v], keys)
    }

    function WithTop(v: Value): Builder
      requires stack != []
    {
      Builder(stack[|stack| - 1 := v], keys)
    }
  }

  /** Hand a finished value to the innermost open container. */
  function AddValue(b: Builder, v: Value): Option<Builder> {
    if b.InObject() then
      if b.keys == [] then None
      else
        var k := b.keys[|b.keys| - 1];
        var prior := Find(b.Top().members, k);
        // A key already bound to null is bound again.
        if prior.Some? && !prior.value.Null? then None
        else Some(Builder(b.WithTop(Object(Put(b.Top().members, k, v))).stack, b.keys[..|b.keys| - 1]))
    else if b.InArray() then
      Some(b.WithTop(Array(b.Top().elems + [v])))
    else
      Some(b.Push(v))
  }

  function AddKey(b: Builder, k: string): Option<Builder> {
    if b.InObject() then Some(b.(keys := b.keys + [k])) else None
  }

  /** Close the innermost container, which must be of the expected kind. */
  function CloseContainer(b: Builder, isArray: bool): Option<Builder>
    requires b.stack != []
  {
    var v := b.Top();
    if isArray != v.Array? || (!isArray && !v.Object?) then None
    else AddValue(Builder(b.stack[..|b.stack| - 1], b.keys), v)
  }
}

/** Base 64, encoded and decoded by machines that can stop and resume at any byte. */
module Base64 {
  import opened Helpers
  import opened RingRows
  import opened Segments

  datatype Step = A | B | C | D

  /** The encoder between bytes; sums stand for disjoint bits put together. */
  datatype Enc = Enc(step: Step, result: nat, stepcount: nat)

  /** The alphabet of section 4 of RFC 4648, by value. */
  const ALPHABET: string := "ABCDEFGHIJKLMNOPQRSTUVWXYZ" + "abcdefghijklmnopqrstuvwxyz" + "0123456789+/"

  /** The character written for a value. */
  function EncodeValue(v: nat): char {
    if v > 63 then '='
    else if v < 26 then ('A' as int + v) as char
    else if v < 52 then ('a' as int + v - 26) as char
    else if v < 62 then ('0' as int + v - 52) as char
    else if v == 62 then '+'
    else '/'
  }

  /** Values are written with the characters of this alphabet. */
  ghost predicate WritesWith(alphabet: string) {
    |alphabet| == 64 && forall v | 0 <= v < 64 :: EncodeValue(v) == alphabet[v]
  }

  lemma WritesStandardAlphabet(v: nat)
    requires v < 64
    ensures |ALPHABET| == 64 && EncodeValue(v) == ALPHABET[v]
  {
  }

  lemma WritesAlphabet()
    ensures WritesWith(ALPHABET)
  {
    WritesStandardAlphabet(0);
    forall v | 0 <= v < 64 ensures EncodeValue(v) == ALPHABET[v] {
      WritesStandardAlphabet(v);
    }
  }

  /** A line break after the group just finished, when the line is full. */
  function LineBreak(stepcount: nat, width: nat): (nat, string) {
    if width == 0 then (stepcount, "")
    else if stepcount + 1 == width / 4 then (0, "\n")
    else (stepcount + 1, "")
  }

  function EncodeByte(e: Enc, b: Byte, width: nat): (Enc, string) {
    match e.step
    case A => (Enc(B, b % 4 * 16, e.stepcount), [EncodeValue(b / 4)])
    case B => (Enc(C, b % 16 * 4, e.stepcount), [EncodeValue(e.result + b / 16)])
    case _ =>
      var (n, nl) := LineBreak(e.stepcount, width);
      (Enc(A, b % 64, n), [EncodeValue(e.result + b / 64), EncodeValue(b % 64)] + nl)
  }

  function EncodeAll(e: Enc, data: seq<Byte>, width: nat): (Enc, string)
    decreases |data|
  {
    if data == [] then (e, "")
    else
      var (e1, text1) := EncodeByte(e, data[0], width);
      var (e2, text2) := EncodeAll(e1, data[1..], width);
      (e2, text1 + text2)
  }

  function Padding(e: Enc): string {
    match e.step
    case B => [EncodeValue(e.result), '=', '=']
    case C => [EncodeValue(e.result), '=']
    case _ => ""
  }

  function EncodeEnd(e: Enc, width: nat): string {
    Padding(e) + if width != 0 then "\n" else ""
  }

  const ENC0: Enc := Enc(A, 0, 0)

  /** The whole text for a string of bytes. */
  function Text(data: seq<Byte>, width: nat): string {
    var (e, text) := EncodeAll(ENC0, data, width);
    text + EncodeEnd(e, width)
  }

  /** `past` is whatever byte stands past the decoding table, which the character after 'z' picks. */
  datatype Dec = Dec(step: Step, currchar: nat, past: int)

  /** Negative for characters to skip. */
  function DecodeValue(c: char, past: int): int {
    if 'A' <= c <= 'Z' then c as int - 'A' as int
    else if 'a' <= c <= 'z' then c as int - 'a' as int + 26
    else if '0' <= c <= '9' then c as int - '0' as int + 52
    else if c == '+' then 62
    else if c == '/' then 63
    else if c == '=' then -2
    else if c == '{' then past
    else -1
  }

  function DecodeChar(d: Dec, c: char): (Dec, seq<nat>) {
    var v := DecodeValue(c, d.past);
    if v < 0 then (d, [])
    else
      match d.step
      case A => (Dec(B, v % 64 * 4, d.past), [])
      case B => (Dec(C, v % 16 * 16, d.past), [d.currchar + v / 16 % 4])
      case C => (Dec(D, v % 4 * 64, d.past), [d.currchar + v / 4 % 16])
      case D => (Dec(A, d.currchar + v % 64, d.past), [d.currchar + v % 64])
  }

  function DecodeAll(d: Dec, text: string): (Dec, seq<nat>)
    decreases |text|
  {
    if text == "" then (d, [])
    else
      var (d1, out1) := DecodeChar(d, text[0]);
      var (d2, out2) := DecodeAll(d1, text[1..]);
      (d2, out1 + out2)
  }

  function Start(past: int): Dec {
    Dec(A, 0, past)
  }

  // ---- cutting the input makes no difference

  /** One byte and the rest. */
  lemma EncodeCons(e: Enc, data: seq<Byte>, first: Byte, rest: seq<Byte>, width: nat)
    requires data == [first] + rest
    ensures var (e1, text1) := EncodeByte(e, first, width);
            var (e2, text2) := EncodeAll(e1, rest, width);
            EncodeAll(e, data, width) == (e2, text1 + text2)
  {
    assert data[0] == first && data[1..] == rest;
  }

  lemma {:induction false} EncodeConcat(e: Enc, a: seq<Byte>, b: seq<Byte>, width: nat)
    ensures var (e1, text1) := EncodeAll(e, a, width);
            var (e2, text2) := EncodeAll(e1, b, width);
            EncodeAll(e, a + b, width) == (e2, text1 + text2)
    decreases |a|
  {
    if a == [] {
      assert a + b == b;
      assert "" + EncodeAll(e, b, width).1 == EncodeAll(e, b, width).1;
    } else {
      var e1 := EncodeByte(e, a[0], width).0;
      EncodeConcat(e1, a[1..], b, width);
      EncodeCons(e, a, a[0], a[1..], width);
      EncodeCons(e, a + b, a[0], a[1..] + b, width);
      Assoc(EncodeByte(e, a[0], width).1, EncodeAll(e1, a[1..], width).1,
        EncodeAll(EncodeAll(e1, a[1..], width).0, b, width).1);
    }
  }

  lemma {:induction false} DecodeConcat(d: Dec, a: string, b: string)
    ensures var (d1, out1) := DecodeAll(d, a);
            var (d2, out2) := DecodeAll(d1, b);
            DecodeAll(d, a + b) == (d2, out1 + out2)
    decreases |a|
  {
    if a == "" {
      assert a + b == b;
      var none: seq<nat> := [];
      assert none + DecodeAll(d, b).1 == DecodeAll(d, b).1;
    } else {
      var (d1, out1) := DecodeChar(d, a[0]);
      DecodeConcat(d1, a[1..], b);
      assert (a + b)[1..] == a[1..] + b;
      var (d2, out2) := DecodeAll(d1, a[1..]);
      assert out1 + (out2 + DecodeAll(d2, b).1) == out1 + out2 + DecodeAll(d2, b).1;
    }
  }

  // ---- decoding undoes encoding

  lemma ValuesReadBack(v: nat)
    requires v < 64
    ensures forall past :: DecodeValue(EncodeValue(v), past) == v
  {
  }

  /** The decoder takes the characters of the standard's alphabet, and what stands past its table, and no others. */
  lemma OnlyAlphabetCounts(c: char, past: int)
    ensures DecodeValue(c, past) >= 0 <==> c in ALPHABET || (c == '{' && past >= 0)
    ensures c in ALPHABET && c != '{' ==> DecodeValue(c, past) < 64 && ALPHABET[DecodeValue(c, past)] == c
  {
    WritesAlphabet();
    var v := DecodeValue(c, past);
    if v >= 0 && c != '{' {
      assert EncodeValue(v) == c && ALPHABET[v] == c;
    }
    if c in ALPHABET {
      var k :| 0 <= k < 64 && ALPHABET[k] == c;
      ValuesReadBack(k);
    }
  }

  /** Any other character, wherever it stands, makes no difference. */
  lemma OthersArePassedOver(d: Dec, a: string, c: char, b: string)
    requires c !in ALPHABET && c != '{'
    ensures DecodeAll(d, a + [c] + b) == DecodeAll(d, a + b)
  {
    var d1 := DecodeAll(d, a).0;
    OnlyAlphabetCounts(c, d1.past);
    DecodeOne(d1, c);
    DecodeConcat(d, a, [c]);
    assert DecodeAll(d, a).1 + [] == DecodeAll(d, a).1;
    DecodeConcat(d, a + [c], b);
    DecodeConcat(d, a, b);
  }

  /** What is still owed to the decoder: `pending` is the byte whose low bits the encoder holds. */
  ghost predicate InStep(e: Enc, d: Dec, pending: seq<Byte>) {
    match e.step
    case A => d.step == A && pending == []
    case B => |pending| == 1 && d == Dec(B, pending[0] / 4 * 4, d.past) && e.result == pending[0] % 4 * 16
    case C => |pending| == 1 && d == Dec(C, pending[0] / 16 * 16, d.past) && e.result == pending[0] % 16 * 4
    case D => false
  }

  lemma DecodeOne(d: Dec, c: char)
    ensures DecodeAll(d, [c]) == DecodeChar(d, c)
  {
    assert |[c][1..]| == 0;
    var r := DecodeChar(d, c);
    assert DecodeAll(r.0, [c][1..]).1 == [] && r.1 + [] == r.1;
  }

  lemma DecodeTwo(d: Dec, c1: char, c2: char)
    ensures var (d1, out1) := DecodeChar(d, c1);
            var (d2, out2) := DecodeChar(d1, c2);
            DecodeAll(d, [c1, c2]) == (d2, out1 + out2)
  {
    DecodeOne(d, c1);
    DecodeOne(DecodeChar(d, c1).0, c2);
    DecodeConcat(d, [c1], [c2]);
    assert [c1] + [c2] == [c1, c2];
  }

  lemma StepFromA(e: Enc, d: Dec, b: Byte, width: nat)
    requires InStep(e, d, []) && e.step == A
    ensures var (e', text) := EncodeByte(e, b, width);
            var (d', out) := DecodeAll(d, text);
            InStep(e', d', [b]) && out == []
  {
    ValuesReadBack(b / 4);
    DecodeOne(d, EncodeValue(b / 4));
  }

  lemma StepFromB(e: Enc, d: Dec, p: Byte, b: Byte, width: nat)
    requires InStep(e, d, [p]) && e.step == B
    ensures var (e', text) := EncodeByte(e, b, width);
            var (d', out) := DecodeAll(d, text);
            InStep(e', d', [b]) && out == [p]
  {
    var v := e.result + b / 16;
    ValuesReadBack(v);
    DecodeOne(d, EncodeValue(v));
    assert v / 16 == p % 4 && v % 16 == b / 16;
  }

  lemma StepFromC(e: Enc, d: Dec, p: Byte, b: Byte, width: nat)
    requires InStep(e, d, [p]) && e.step == C
    ensures var (e', text) := EncodeByte(e, b, width);
            var (d', out) := DecodeAll(d, text);
            InStep(e', d', []) && out == [p, b]
  {
    var v := e.result + b / 64;
    var (n, nl) := LineBreak(e.stepcount, width);
    ValuesReadBack(v);
    ValuesReadBack(b % 64);
    LastSixBits(p, b);
    var c1, c2, d0, d1 := EncodeValue(v), EncodeValue(b % 64), Dec(D, b / 64 * 64, d.past), Dec(A, b, d.past);
    assert DecodeChar(d, c1) == (d0, [p]);
    assert DecodeChar(d0, c2) == (d1, [b]);
    DecodeTwo(d, c1, c2);
    DecodeConcat(d, [c1, c2], nl);
    BlankLine(d1, nl);
  }

  lemma LastSixBits(p: Byte, b: Byte)
    ensures var v := p % 16 * 4 + b / 64;
            v < 64 && v / 4 % 16 == p % 16 && v % 4 == b / 64
    ensures p / 16 * 16 + p % 16 == p && b / 64 * 64 + b % 64 == b
  {
  }

  lemma BlankLine(d: Dec, nl: string)
    requires nl == "" || nl == "\n"
    ensures DecodeAll(d, nl) == (d, [])
  {
    if nl == "\n" {
      DecodeOne(d, '\n');
      assert nl == ['\n'];
    }
  }

  lemma {:induction false} DecodeFollows(e: Enc, d: Dec, pending: seq<Byte>, data: seq<Byte>, width: nat)
      returns (pending': seq<Byte>)
    requires InStep(e, d, pending)
    ensures var (e', text) := EncodeAll(e, data, width);
            var (d', out) := DecodeAll(d, text);
            InStep(e', d', pending') && out + pending' == pending + data
    decreases |data|
  {
    if data == [] {
      pending' := pending;
      var none: seq<nat> := [];
      assert none + pending == pending + data;
    } else {
      var b := data[0];
      var (e1, text1) := EncodeByte(e, b, width);
      var p1: seq<Byte>;
      match e.step {
        case A => StepFromA(e, d, b, width); p1 := [b];
        case B => StepFromB(e, d, pending[0], b, width); p1 := [b];
        case C => StepFromC(e, d, pending[0], b, width); p1 := [];
      }
      var (d1, out1) := DecodeAll(d, text1);
      assert out1 + p1 == pending + [b];
      pending' := DecodeFollows(e1, d1, p1, data[1..], width);
      var (e2, text2) := EncodeAll(e1, data[1..], width);
      var (d2, out2) := DecodeAll(d1, text2);
      DecodeConcat(d, text1, text2);
      JoinOutputs(out1, out2, p1, pending, pending', b, data);
    }
  }

  lemma JoinOutputs(out1: seq<nat>, out2: seq<nat>, p1: seq<Byte>, pending: seq<Byte>, pending': seq<Byte>, b: Byte,
      data: seq<Byte>)
    requires data != [] && b == data[0] && out1 + p1 == pending + [b] && out2 + pending' == p1 + data[1..]
    ensures out1 + out2 + pending' == pending + data
  {
    calc {
      out1 + out2 + pending';
      out1 + (out2 + pending');
      out1 + (p1 + data[1..]);
      (out1 + p1) + data[1..];
      pending + ([b] + data[1..]);
      { assert [b] + data[1..] == data; }
      pending + data;
    }
  }

  /** Decoding the encoded text gives the bytes back, whatever the line width. */
  lemma DecodeUndoesEncode(data: seq<Byte>, width: nat, past: int)
    ensures DecodeAll(Start(past), Text(data, width)).1 == data
  {
    var (e, text) := EncodeAll(ENC0, data, width);
    var pending := DecodeFollows(ENC0, Start(past), [], data, width);
    var (d, out) := DecodeAll(Start(past), text);
    DecodeConcat(Start(past), text, EncodeEnd(e, width));
    EndFlushes(e, d, pending, width);
    assert out + pending == data;
  }

  lemma EndFlushes(e: Enc, d: Dec, pending: seq<Byte>, width: nat)
    requires InStep(e, d, pending)
    ensures DecodeAll(d, EncodeEnd(e, width)).1 == pending
  {
    var nl := if width != 0 then "\n" else "";
    PaddingFlushes(e, d, pending);
    DecodeConcat(d, Padding(e), nl);
    BlankLine(DecodeAll(d, Padding(e)).0, nl);
  }

  lemma PaddingFlushes(e: Enc, d: Dec, pending: seq<Byte>)
    requires InStep(e, d, pending)
    ensures DecodeAll(d, Padding(e)).1 == pending
  {
    if e.step != A {
      var c := EncodeValue(e.result);
      ValuesReadBack(e.result);
      var (d1, out) := DecodeChar(d, c);
      assert out == pending;
      DecodeTwo(d, c, '=');
      if e.step == B {
        DecodeOne(d1, '=');
        DecodeConcat(d, [c, '='], ['=']);
        assert [c, '='] + ['='] == [c, '=', '='];
      }
    }
  }

  // ---- the format, independently of the machine

  /** Section 4 of RFC 4648: three bytes to four characters of the alphabet, the last group padded. */
  function Rfc4648(data: seq<Byte>, abc: string): string
    requires |abc| == 64
    decreases |data|
  {
    if data == [] then ""
    else if |data| == 1 then [abc[data[0] / 4], abc[data[0] % 4 * 16], '=', '=']
    else if |data| == 2 then
      [abc[data[0] / 4], abc[data[0] % 4 * 16 + data[1] / 16], abc[data[1] % 16 * 4], '=']
    else
      [abc[data[0] / 4], abc[data[0] % 4 * 16 + data[1] / 16], abc[data[1] % 16 * 4 + data[2] / 64], abc[data[2] % 64]]
      + Rfc4648(data[3..], abc)
  }

  function Joined(text: string): string {
    if text == "" then "" else (if text[0] == '\n' then "" else [text[0]]) + Joined(text[1..])
  }

  lemma {:induction false} JoinedConcat(a: string, b: string)
    ensures Joined(a + b) == Joined(a) + Joined(b)
  {
    if a == "" {
      assert a + b == b;
    } else {
      JoinedConcat(a[1..], b);
      assert (a + b)[1..] == a[1..] + b;
      var h := if a[0] == '\n' then "" else [a[0]];
      assert h + (Joined(a[1..]) + Joined(b)) == h + Joined(a[1..]) + Joined(b);
    }
  }

  lemma JoinedFour(a: char, b: char, c: char, d: char, nl: string)
    requires a != '\n' && b != '\n' && c != '\n' && d != '\n' && (nl == "" || nl == "\n")
    ensures Joined([a, b, c, d] + nl) == [a, b, c, d]
  {
    var t := [a, b, c, d];
    assert t[1..] == [b, c, d] && [b, c, d][1..] == [c, d] && [c, d][1..] == [d] && [d][1..] == "";
    assert Joined([d]) == [d] + "" && Joined([c, d]) == [c] + [d] && Joined([b, c, d]) == [b] + [c, d];
    assert Joined(t) == [a] + [b, c, d];
    assert nl == "\n" ==> nl[1..] == "" && Joined(nl) == "";
    JoinedConcat(t, nl);
    assert t + "" == t;
  }

  lemma NoNewlines(v: nat)
    ensures EncodeValue(v) != '\n'
  {
  }

  /** Three bytes from the start of a group. */
  lemma OneGroup(e: Enc, x: Byte, y: Byte, z: Byte, width: nat)
    requires e.step == A
    ensures var (n, nl) := LineBreak(e.stepcount, width);
            EncodeAll(e, [x, y, z], width) ==
            (Enc(A, z % 64, n), [EncodeValue(x / 4), EncodeValue(x % 4 * 16 + y / 16),
                                 EncodeValue(y % 16 * 4 + z / 64), EncodeValue(z % 64)] + nl)
  {
    var (n, nl) := LineBreak(e.stepcount, width);
    var e1 := Enc(B, x % 4 * 16, e.stepcount);
    var e2 := Enc(C, y % 16 * 4, e.stepcount);
    var e3 := Enc(A, z % 64, n);
    assert [x, y, z][1..] == [y, z] && [y, z][1..] == [z] && [z][1..] == [];
    var t3 := [EncodeValue(y % 16 * 4 + z / 64), EncodeValue(z % 64)] + nl;
    assert EncodeAll(e3, [], width) == (e3, "");
    assert EncodeAll(e2, [z], width) == (e3, t3 + "");
    assert t3 + "" == t3;
    var t2 := [EncodeValue(x % 4 * 16 + y / 16)];
    assert EncodeAll(e1, [y, z], width) == (e3, t2 + t3);
    var t1 := [EncodeValue(x / 4)];
    assert t1 + (t2 + t3) == [EncodeValue(x / 4), EncodeValue(x % 4 * 16 + y / 16),
                                 EncodeValue(y % 16 * 4 + z / 64), EncodeValue(z % 64)] + nl;
  }

  /** Line breaks apart, the machine writes the standard's format in the alphabet it writes with. */
  lemma {:induction false} EncoderMeetsFormat(e: Enc, data: seq<Byte>, width: nat, abc: string)
    requires e.step == A && WritesWith(abc)
    ensures var (e', text) := EncodeAll(e, data, width); Joined(text + EncodeEnd(e', width)) == Rfc4648(data, abc)
    decreases |data|
  {
    if |data| < 3 {
      ShortEnd(e, data, width, abc);
    } else {
      EncoderMeetsFormat(Enc(A, data[2] % 64, LineBreak(e.stepcount, width).0), data[3..], width, abc);
      GroupThenRest(e, data, width);
      GroupMeetsFormat(data, abc);
    }
  }

  /** Line breaks apart, the text is the standard's, in the standard's alphabet, at every width. */
  lemma EncoderMeetsRfc4648(data: seq<Byte>, width: nat)
    ensures |ALPHABET| == 64 && Joined(Text(data, width)) == Rfc4648(data, ALPHABET)
  {
    WritesAlphabet();
    EncoderMeetsFormat(ENC0, data, width, ALPHABET);
  }

  /** The four characters of the first three bytes. */
  function Group(data: seq<Byte>): string
    requires |data| >= 3
  {
    [EncodeValue(data[0] / 4), EncodeValue(data[0] % 4 * 16 + data[1] / 16),
     EncodeValue(data[1] % 16 * 4 + data[2] / 64), EncodeValue(data[2] % 64)]
  }

  lemma GroupThenRest(e: Enc, data: seq<Byte>, width: nat)
    requires e.step == A && |data| >= 3
    ensures var (e', rest) := EncodeAll(Enc(A, data[2] % 64, LineBreak(e.stepcount, width).0), data[3..], width);
            var (e'', text) := EncodeAll(e, data, width);
            Joined(text + EncodeEnd(e'', width)) == Group(data) + Joined(rest + EncodeEnd(e', width))
  {
    var (n, nl) := LineBreak(e.stepcount, width);
    var (e', rest) := EncodeAll(Enc(A, data[2] % 64, n), data[3..], width);
    WholeGroup(e, data, width);
    JoinedConcat(Group(data) + nl, rest + EncodeEnd(e', width));
    assert Group(data) + nl + rest + EncodeEnd(e', width) == Group(data) + nl + (rest + EncodeEnd(e', width));
  }

  lemma GroupMeetsFormat(data: seq<Byte>, abc: string)
    requires |data| >= 3 && WritesWith(abc)
    ensures Group(data) + Rfc4648(data[3..], abc) == Rfc4648(data, abc)
  {
  }

  lemma WholeGroup(e: Enc, data: seq<Byte>, width: nat)
    requires e.step == A && |data| >= 3
    ensures var (n, nl) := LineBreak(e.stepcount, width);
            var (e', text) := EncodeAll(Enc(A, data[2] % 64, n), data[3..], width);
            EncodeAll(e, data, width) == (e', Group(data) + nl + text) && Joined(Group(data) + nl) == Group(data)
  {
    var (n, nl) := LineBreak(e.stepcount, width);
    var first, g := data[..3], Group(data);
    assert data == first + data[3..] && first == [data[0], data[1], data[2]];
    OneGroup(e, data[0], data[1], data[2], width);
    EncodeConcat(e, first, data[3..], width);
    NoNewlines(data[0] / 4);
    JoinedFour(g[0], g[1], g[2], g[3], nl);
    assert [g[0], g[1], g[2], g[3]] == g;
  }

  lemma ShortEnd(e: Enc, data: seq<Byte>, width: nat, abc: string)
    requires e.step == A && WritesWith(abc) && |data| < 3
    ensures var (e', text) := EncodeAll(e, data, width); Joined(text + EncodeEnd(e', width)) == Rfc4648(data, abc)
  {
    if data == [] {
      var nl := if width != 0 then "\n" else "";
      assert "" + ("" + nl) == nl;
      assert nl == "\n" ==> nl[1..] == "";
    } else if |data| == 1 {
      EndOfOne(e, data, width, abc);
    } else {
      EndOfTwo(e, data, width, abc);
    }
  }

  lemma EndOfOne(e: Enc, data: seq<Byte>, width: nat, abc: string)
    requires e.step == A && WritesWith(abc) && |data| == 1
    ensures var (e', text) := EncodeAll(e, data, width); Joined(text + EncodeEnd(e', width)) == Rfc4648(data, abc)
  {
    var x, nl := data[0], if width != 0 then "\n" else "";
    var t1, t2 := [EncodeValue(x / 4)], [EncodeValue(x % 4 * 16), '=', '='] + nl;
    assert EncodeAll(Enc(B, x % 4 * 16, e.stepcount), data[1..], width) == (Enc(B, x % 4 * 16, e.stepcount), "");
    assert t1 + "" == t1;
    JoinedFour(EncodeValue(x / 4), EncodeValue(x % 4 * 16), '=', '=', nl);
    assert t1 + t2 == [EncodeValue(x / 4), EncodeValue(x % 4 * 16), '=', '='] + nl;
  }

  lemma EndOfTwo(e: Enc, data: seq<Byte>, width: nat, abc: string)
    requires e.step == A && WritesWith(abc) && |data| == 2
    ensures var (e', text) := EncodeAll(e, data, width); Joined(text + EncodeEnd(e', width)) == Rfc4648(data, abc)
  {
    var x, y, nl := data[0], data[1], if width != 0 then "\n" else "";
    var e1, e2 := Enc(B, x % 4 * 16, e.stepcount), Enc(C, y % 16 * 4, e.stepcount);
    var t1, t2, t3 := [EncodeValue(x / 4)], [EncodeValue(x % 4 * 16 + y / 16)], [EncodeValue(y % 16 * 4), '='] + nl;
    assert data[1..][1..] == [];
    assert EncodeAll(e2, data[1..][1..], width) == (e2, "");
    assert EncodeAll(e1, data[1..], width) == (e2, t2 + "");
    assert t1 + (t2 + "") == t1 + t2;
    JoinedFour(EncodeValue(x / 4), EncodeValue(x % 4 * 16 + y / 16), EncodeValue(y % 16 * 4), '=', nl);
    assert t1 + t2 + t3 == [EncodeValue(x / 4), EncodeValue(x % 4 * 16 + y / 16), EncodeValue(y % 16 * 4), '='] + nl;
  }

  // ---- line breaks

  /** The whole text without its final line break. */
  function Unended(data: seq<Byte>, width: nat): (r: string)
    ensures Text(data, width) == r + if width != 0 then "\n" else ""
  {
    var (e, text) := EncodeAll(ENC0, data, width);
    var nl := if width != 0 then "\n" else "";
    assert text + (Padding(e) + nl) == text + Padding(e) + nl;
    text + Padding(e)
  }

  /** The length of a full line: whole groups only. */
  function LineLength(width: nat): nat {
    4 * (width / 4)
  }

  /** The column after the text, or -1 once a line breaks anywhere but right after `len` characters. */
  function Column(text: string, col: int, len: nat): int {
    if text == "" || col < 0 then col
    else Column(text[1..], if (text[0] == '\n') != (col == len) then -1 else if col == len then 0 else col + 1, len)
  }

  lemma {:induction false} ColumnConcat(a: string, b: string, col: int, len: nat)
    ensures Column(a + b, col, len) == Column(b, Column(a, col, len), len)
    decreases |a|
  {
    if a == "" {
      assert a + b == b;
    } else if col >= 0 {
      ColumnConcat(a[1..], b, if (a[0] == '\n') != (col == len) then -1 else if col == len then 0 else col + 1, len);
      assert (a + b)[1..] == a[1..] + b;
    }
  }

  /** Where the encoder stands on its line. */
  ghost predicate OnLine(e: Enc, col: int, width: nat) {
    e.step != D && 4 * e.stepcount + 4 <= width
    && col == 4 * e.stepcount + (match e.step case A => 0 case B => 1 case _ => 2)
  }

  lemma PlainColumn(c: char, col: int, len: nat)
    requires c != '\n' && 0 <= col < len
    ensures Column([c], col, len) == col + 1
  {
    assert |[c][1..]| == 0;
  }

  lemma {:induction false} BodyOnLine(e: Enc, data: seq<Byte>, width: nat, col: int)
    requires width >= 4 && OnLine(e, col, width)
    ensures var (e', text) := EncodeAll(e, data, width); OnLine(e', Column(text, col, LineLength(width)), width)
    decreases |data|
  {
    if data != [] {
      var b := data[0];
      var (e1, text1) := EncodeByte(e, b, width);
      ByteOnLine(e, b, width, col);
      BodyOnLine(e1, data[1..], width, Column(text1, col, LineLength(width)));
      ColumnConcat(text1, EncodeAll(e1, data[1..], width).1, col, LineLength(width));
    }
  }

  lemma ByteOnLine(e: Enc, b: Byte, width: nat, col: int)
    requires width >= 4 && OnLine(e, col, width)
    ensures var (e1, text1) := EncodeByte(e, b, width); OnLine(e1, Column(text1, col, LineLength(width)), width)
  {
    var len := LineLength(width);
    match e.step
    case A => NoNewlines(b / 4); PlainColumn(EncodeValue(b / 4), col, len);
    case B => NoNewlines(e.result + b / 16); PlainColumn(EncodeValue(e.result + b / 16), col, len);
    case C =>
      var c1, c2 := EncodeValue(e.result + b / 64), EncodeValue(b % 64);
      var (n, nl) := LineBreak(e.stepcount, width);
      NoNewlines(b % 64);
      PlainColumn(c1, col, len);
      PlainColumn(c2, col + 1, len);
      ColumnConcat([c1], [c2], col, len);
      ColumnConcat([c1] + [c2], nl, col, len);
      assert [c1] + [c2] == [c1, c2];
      assert nl == "\n" ==> |nl[1..]| == 0;
  }

  lemma PaddingOnLine(e: Enc, col: int, width: nat)
    requires width >= 4 && OnLine(e, col, width)
    ensures 0 <= Column(Padding(e), col, LineLength(width)) <= LineLength(width)
  {
    var c, len := EncodeValue(e.result), LineLength(width);
    NoNewlines(e.result);
    if e.step != A {
      PlainColumn(c, col, len);
      PlainColumn('=', col + 1, len);
      ColumnConcat([c], ['='], col, len);
      ColumnConcat([c] + ['='], ['='], col, len);
      assert [c] + ['='] == [c, '='] && [c, '='] + ['='] == [c, '=', '='];
      if e.step == B {
        PlainColumn('=', col + 2, len);
      }
    }
  }

  lemma WrapAround(n: nat, i: nat)
    requires 0 < n <= i
    ensures i % n == (i - n) % n
  {
    var q, r := i / n, i % n;
    assert i - n == n * (q - 1) + r;
    Remainder(i - n, n, q - 1, r);
  }

  lemma Remainder(i: int, n: nat, q: int, r: nat)
    requires i == n * q + r && r < n
    ensures i % n == r
  {
    var q', r' := i / n, i % n;
    assert n * q' + r' == n * q + r;
    if q > q' {
      Multiple(n, q - q');
    } else if q < q' {
      Multiple(n, q' - q);
    }
  }

  lemma Multiple(n: nat, k: nat)
    requires k >= 1
    ensures n * k >= n
  {
  }

  /** Lines counted by column are lines counted by position. */
  lemma {:induction false} ColumnIsPosition(text: string, col: nat, len: nat, i: nat)
    requires 0 <= col <= len && Column(text, col, len) >= 0 && i < |text|
    ensures text[i] == '\n' <==> (col + i) % (len + 1) == len
    decreases |text|
  {
    if i == 0 {
      Remainder(col, len + 1, 0, col);
    } else if col == len {
      ColumnIsPosition(text[1..], 0, len, i - 1);
      WrapAround(len + 1, col + i);
    } else {
      ColumnIsPosition(text[1..], col + 1, len, i - 1);
    }
  }

  /** The place of a line break, when every line is `len` characters and a break. */
  predicate AtBreak(i: nat, len: nat) {
    i % (len + 1) == len
  }

  /** The text breaks after every `len` characters and nowhere else. */
  ghost predicate BreaksEvery(text: string, len: nat) {
    forall i | 0 <= i < |text| :: text[i] == '\n' <==> AtBreak(i, len)
  }

  /** From a width of four on, lines are exactly as long as the whole groups that fit. */
  lemma LinesFit(data: seq<Byte>, width: nat)
    requires width >= 4
    ensures BreaksEvery(Unended(data, width), LineLength(width)) && LineLength(width) <= width
  {
    var (e, text) := EncodeAll(ENC0, data, width);
    var len := LineLength(width);
    BodyOnLine(ENC0, data, width, 0);
    PaddingOnLine(e, Column(text, 0, len), width);
    ColumnConcat(text, Padding(e), 0, len);
    forall i | 0 <= i < |text + Padding(e)|
      ensures (text + Padding(e))[i] == '\n' <==> AtBreak(i, len)
    {
      ColumnIsPosition(text + Padding(e), 0, len, i);
    }
  }

  /** Bytes taken since the start of a line. */
  function Since(e: Enc): nat {
    3 * e.stepcount + match e.step case A => 0 case B => 1 case _ => 2
  }

  /** There is a line break exactly when a line's worth of bytes has come. */
  lemma {:induction false} BreakCount(e: Enc, data: seq<Byte>, width: nat)
    requires e.step != D && 4 * e.stepcount + 4 <= width
    ensures '\n' in EncodeAll(e, data, width).1 <==> Since(e) + |data| >= 3 * (width / 4)
    ensures var (e', text) := EncodeAll(e, data, width);
            Since(e') == (Since(e) + |data|) % (3 * (width / 4)) && e'.step != D && 4 * e'.stepcount + 4 <= width
    decreases |data|
  {
    var n := 3 * (width / 4);
    if data == [] {
      Remainder(Since(e), n, 0, Since(e));
    } else {
      var (e1, text1) := EncodeByte(e, data[0], width);
      ByteCount(e, data[0], width);
      BreakCount(e1, data[1..], width);
      if Since(e) + 1 == n {
        WrapAround(n, Since(e) + |data|);
      }
    }
  }

  lemma ByteCount(e: Enc, b: Byte, width: nat)
    requires e.step != D && 4 * e.stepcount + 4 <= width
    ensures var (e1, text1) := EncodeByte(e, b, width);
            && e1.step != D && 4 * e1.stepcount + 4 <= width
            && ('\n' in text1 <==> Since(e) + 1 == 3 * (width / 4))
            && Since(e1) == if Since(e) + 1 == 3 * (width / 4) then 0 else Since(e) + 1
  {
    NoNewlines(b / 4);
    NoNewlines(e.result + b / 16);
    NoNewlines(e.result + b / 64);
    NoNewlines(b % 64);
  }

  lemma PaddingPlain(e: Enc)
    ensures '\n' !in Padding(e)
  {
    NoNewlines(e.result);
  }

  /** Narrower than a group, the width is ignored: no line break before the end; with none, not even there. */
  lemma {:induction false} NarrowWidthIgnored(e: Enc, data: seq<Byte>, width: nat)
    requires width < 4 && e.step != D
    ensures '\n' !in EncodeAll(e, data, width).1
    decreases |data|
  {
    if data != [] {
      var b := data[0];
      NoNewlines(b / 4);
      NoNewlines(e.result + b / 16);
      NoNewlines(e.result + b / 64);
      NoNewlines(b % 64);
      NarrowWidthIgnored(EncodeByte(e, b, width).0, data[1..], width);
    }
  }

  /** Any bytes at all give at least a group of characters. */
  lemma AtLeastAGroup(data: seq<Byte>, width: nat)
    requires data != []
    ensures |Unended(data, width)| >= 4
  {
    var e1, e2 := EncodeByte(ENC0, data[0], width).0, ENC0;
    if |data| == 1 {
      assert EncodeAll(e1, data[1..], width) == (e1, "");
    } else {
      e2 := EncodeByte(e1, data[1], width).0;
      assert data[1..][1..] == data[2..];
      var rest := EncodeAll(e2, data[2..], width);
      if |data| == 2 {
        assert rest == (e2, "");
      } else {
        assert |rest.1| >= 2;
      }
    }
  }

  /**
   * The documented rule, a line break after every `width` characters, holds exactly for the
   * widths that are multiples of four, and for texts too short for their first break.
   */
  lemma BreaksAsDocumented(data: seq<Byte>, width: nat)
    requires width != 0
    ensures BreaksEvery(Unended(data, width), width) <==> width % 4 == 0 || |data| < 3 * (width / 4) || data == []
  {
    var (e, text) := EncodeAll(ENC0, data, width);
    var all, len := Unended(data, width), LineLength(width);
    PaddingPlain(e);
    if width < 4 {
      NarrowWidthIgnored(ENC0, data, width);
      if data != [] {
        AtLeastAGroup(data, width);
        Remainder(width, width + 1, 0, width);
        assert all[width] != '\n';
      }
    } else {
      LinesFit(data, width);
      BreakCount(ENC0, data, width);
      if |data| < 3 * (width / 4) {
        ShortText(all, len, width);
      } else if width % 4 != 0 {
        var i :| 0 <= i < |text| && text[i] == '\n';
        assert all[i] == '\n';
        if |all| <= len {
          Remainder(i, len + 1, 0, i);
        }
        Remainder(len, len + 1, 0, len);
        Remainder(len, width + 1, 0, len);
        assert all[len] == '\n';
      }
    }
  }

  lemma ShortText(text: string, len: nat, width: nat)
    requires '\n' !in text && BreaksEvery(text, len) && len <= width
    ensures BreaksEvery(text, width)
  {
    Remainder(len, len + 1, 0, len);
    assert AtBreak(len, len);
    forall i | 0 <= i < |text|
      ensures !AtBreak(i, width)
    {
      Remainder(i, width + 1, 0, i);
    }
  }

  /** A width that is not a multiple of four: the first line breaks after four characters, not five. */
  lemma FiveIsFour()
    ensures Text([0, 0, 0], 5) == "AAAA\n\n" && !BreaksEvery(Unended([0, 0, 0], 5), 5)
  {
    OneGroup(ENC0, 0, 0, 0, 5);
    assert Text([0, 0, 0], 5) == "AAAA" + "\n" + "\n";
    BreaksAsDocumented([0, 0, 0], 5);
  }

  /** What is written next begins a line. */
  predicate AtLineStart(text: string) {
    text == "" || text[|text| - 1] == '\n'
  }

  /** The final line break follows an empty line exactly when no line was begun. */
  lemma EmptyLastLine(data: seq<Byte>, width: nat)
    requires width >= 4
    ensures AtLineStart(Unended(data, width)) <==> |data| % (3 * (width / 4)) == 0
  {
    var (e, text) := EncodeAll(ENC0, data, width);
    var len := LineLength(width);
    BreakCount(ENC0, data, width);
    BodyOnLine(ENC0, data, width, 0);
    PaddingPlain(e);
    if e.step == A {
      assert text + Padding(e) == text;
      if text != "" {
        var front, last := text[..|text| - 1], text[|text| - 1];
        ColumnConcat(front, [last], 0, len);
        assert front + [last] == text && |[last][1..]| == 0;
      }
    } else {
      var all := text + Padding(e);
      assert all[|all| - 1] in Padding(e);
    }
  }

  // ---- the machines

  class Base64Encoder {
    var step: Step
    const charsPerLine: nat
    var result: nat
    var stepcount: nat
    var output: string

    function Abs(): Enc
      reads this
    {
      Enc(step, result, stepcount)
    }

    constructor (cpl: nat)
      ensures Abs() == ENC0 && output == "" && charsPerLine == cpl
    {
      step, charsPerLine, result, stepcount, output := A, cpl, 0, 0, "";
    }

    /** One turn of the encoding loop. */
    method EncodeFragment(fragment: Byte)
      modifies this
      ensures EncodeByte(old(Abs()), fragment, charsPerLine).0 == Abs()
      ensures output == old(output) + EncodeByte(old(Abs()), fragment, charsPerLine).1
    {
      match step {
        case A =>
          result := fragment / 4;
          output := output + [EncodeValue(result)];
          result := fragment % 4 * 16;
          step := B;
        case B =>
          result := result + fragment / 16;
          output := output + [EncodeValue(result)];
          result := fragment % 16 * 4;
          step := C;
        case _ =>
          result := result + fragment / 64;
          output := output + [EncodeValue(result)];
          result := fragment % 64;
          output := output + [EncodeValue(result)];
          if charsPerLine != 0 {
            stepcount := stepcount + 1;
            if stepcount == charsPerLine / 4 {
              output := output + ['\n'];
              stepcount := 0;
            }
          }
          step := A;
      }
      assert output == old(output) + EncodeByte(old(Abs()), fragment, charsPerLine).1;
    }

    /** Any block, resuming where the last one stopped in mid-group. */
    method EncodeBlock(data: seq<Byte>)
      modifies this
      ensures EncodeAll(old(Abs()), data, charsPerLine).0 == Abs()
      ensures output == old(output) + EncodeAll(old(Abs()), data, charsPerLine).1
    {
      var current := 0;
      ghost var e0 := Abs();
      while current < |data|
        invariant 0 <= current <= |data|
        invariant EncodeAll(e0, data[..current], charsPerLine).0 == Abs()
        invariant output == old(output) + EncodeAll(e0, data[..current], charsPerLine).1
      {
        ghost var e, sofar := Abs(), output;
        EncodeFragment(data[current]);
        ghost var piece := EncodeByte(e, data[current], charsPerLine).1;
        EncodeSnoc(e0, data, current, charsPerLine);
        assert old(output) + EncodeAll(e0, data[..current], charsPerLine).1 + piece
            == old(output) + (EncodeAll(e0, data[..current], charsPerLine).1 + piece);
        current := current + 1;
      }
      assert data[..current] == data;
    }

    method GetPartial() returns (r: string)
      modifies this`output
      ensures r == old(output) && output == ""
    {
      r := output;
      output := "";
    }

    method BlockEnd() returns (r: string)
      modifies this
      ensures r == old(output) + EncodeEnd(old(Abs()), charsPerLine)
      ensures Abs() == ENC0 && output == ""
    {
      ghost var e := Abs();
      match step {
        case B => output := output + [EncodeValue(result)] + ['='] + ['='];
        case C => output := output + [EncodeValue(result)] + ['='];
        case _ =>
      }
      if charsPerLine != 0 {
        output := output + ['\n'];
      }
      r := output;
      assert r == old(output) + EncodeEnd(e, charsPerLine);
      Reset();
    }

    method Reset()
      modifies this
      ensures Abs() == ENC0 && output == ""
    {
      step, result, stepcount, output := A, 0, 0, "";
    }
  }

  lemma EncodeSnoc(e: Enc, data: seq<Byte>, i: nat, width: nat)
    requires i < |data|
    ensures var (e1, text1) := EncodeAll(e, data[..i], width);
            var (e2, text2) := EncodeByte(e1, data[i], width);
            EncodeAll(e, data[..i + 1], width) == (e2, text1 + text2)
  {
    var (e1, text1) := EncodeAll(e, data[..i], width);
    var (e2, text2) := EncodeByte(e1, data[i], width);
    EncodeConcat(e, data[..i], [data[i]], width);
    assert data[..i] + [data[i]] == data[..i + 1];
    assert [data[i]][1..] == [] && EncodeAll(e2, [], width) == (e2, "");
    assert EncodeAll(e1, [data[i]], width) == (e2, text2 + "");
    assert text2 + "" == text2;
  }

  class Base64Decoder {
    var step: Step
    var currchar: nat
    const past: int
    var output: seq<nat>

    function Abs(): Dec
      reads this
    {
      Dec(step, currchar, past)
    }

    constructor (past: int)
      ensures Abs() == Start(past) && output == []
    {
      this.past := past;
      step, currchar, output := A, 0, [];
    }

    /** Any block of text, resuming in mid-group; characters outside the alphabet are passed over. */
    method DecodeBlock(code: string)
      modifies this
      ensures DecodeAll(old(Abs()), code).0 == Abs()
      ensures output == old(output) + DecodeAll(old(Abs()), code).1
    {
      var at := 0;
      ghost var d0 := Abs();
      while at < |code|
        invariant 0 <= at <= |code|
        invariant DecodeAll(d0, code[..at]).0 == Abs()
        invariant output == old(output) + DecodeAll(d0, code[..at]).1
      {
        ghost var d, sofar := Abs(), output;
        var fragment := DecodeValue(code[at], past);
        if fragment >= 0 {
          match step {
            case A =>
              currchar := fragment % 64 * 4;
              step := B;
            case B =>
              currchar := currchar + fragment / 16 % 4;
              output := output + [currchar];
              currchar := fragment % 16 * 16;
              step := C;
            case C =>
              currchar := currchar + fragment / 4 % 16;
              output := output + [currchar];
              currchar := fragment % 4 * 64;
              step := D;
            case D =>
              currchar := currchar + fragment % 64;
              output := output + [currchar];
              step := A;
          }
        }
        ghost var piece := DecodeChar(d, code[at]).1;
        assert output == sofar + piece;
        DecodeSnoc(d0, code, at);
        assert old(output) + DecodeAll(d0, code[..at]).1 + piece == old(output) + (DecodeAll(d0, code[..at]).1 + piece);
        at := at + 1;
      }
      assert code[..at] == code;
    }

    method GetPartial() returns (r: seq<nat>)
      modifies this`output
      ensures r == old(output) && output == []
    {
      r := output;
      output := [];
    }

    method BlockEnd() returns (r: seq<nat>)
      modifies this
      ensures r == old(output) && Abs() == Start(past) && output == []
    {
      r := output;
      output, currchar, step := [], 0, A;
    }
  }

  lemma DecodeSnoc(d: Dec, code: string, i: nat)
    requires i < |code|
    ensures var (d1, out1) := DecodeAll(d, code[..i]);
            var (d2, out2) := DecodeChar(d1, code[i]);
            DecodeAll(d, code[..i + 1]) == (d2, out1 + out2)
  {
    var d1 := DecodeAll(d, code[..i]).0;
    DecodeConcat(d, code[..i], [code[i]]);
    DecodeOne(d1, code[i]);
    assert code[..i] + [code[i]] == code[..i + 1];
  }

  /** The encoding program: block by block, taking out what is ready after each. */
  method Encode(blocks: seq<seq<Byte>>, width: nat) returns (text: string)
    ensures text == Text(Flatten(blocks), width)
  {
    var encoder := new Base64Encoder(width);
    text := "";
    var i := 0;
    while i < |blocks|
      invariant 0 <= i <= |blocks| && encoder.charsPerLine == width && encoder.output == ""
      invariant EncodeAll(ENC0, Flatten(blocks[..i]), width) == (encoder.Abs(), text)
    {
      FlattenSnoc(blocks, i);
      EncodeConcat(ENC0, Flatten(blocks[..i]), blocks[i], width);
      ghost var e := encoder.Abs();
      encoder.EncodeBlock(blocks[i]);
      var out := encoder.GetPartial();
      assert out == EncodeAll(e, blocks[i], width).1;
      text := text + out;
      i := i + 1;
    }
    assert blocks[..i] == blocks;
    var out := encoder.BlockEnd();
    text := text + out;
  }

  /** The decoding program. */
  method Decode(blocks: seq<string>, past: int) returns (data: seq<nat>)
    ensures data == DecodeAll(Start(past), Flatten(blocks)).1
  {
    var decoder := new Base64Decoder(past);
    data := [];
    var i := 0;
    while i < |blocks|
      invariant 0 <= i <= |blocks| && decoder.output == []
      invariant decoder.past == past && DecodeAll(Start(past), Flatten(blocks[..i])) == (decoder.Abs(), data)
    {
      FlattenSnoc(blocks, i);
      DecodeConcat(Start(past), Flatten(blocks[..i]), blocks[i]);
      ghost var d := decoder.Abs();
      decoder.DecodeBlock(blocks[i]);
      var out := decoder.GetPartial();
      assert out == DecodeAll(d, blocks[i]).1;
      data := data + out;
      i := i + 1;
    }
    assert blocks[..i] == blocks;
    var out := decoder.BlockEnd();
    data := data + out;
  }

  /** However the bytes are cut before encoding and the text before decoding, the bytes come back. */
  lemma AnyCutComesBack(blocks: seq<seq<Byte>>, width: nat, codes: seq<string>, past: int)
    requires Flatten(codes) == Text(Flatten(blocks), width)
    ensures DecodeAll(Start(past), Flatten(codes)).1 == Flatten(blocks)
  {
    DecodeUndoesEncode(Flatten(blocks), width, past);
  }
}

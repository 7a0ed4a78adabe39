/** How string bodies and Unicode escapes run through the parser. */
module JsonStrings {
  import opened Helpers
  import opened JsonTable
  import opened JsonValue
  import opened JsonParser
  import opened JsonPrinter

  // ---- runs of the parser

  ghost predicate StepAt(hist: seq<Core>, text: string, i: nat)
    requires |hist| == |text| + 1 && i < |text|
  {
    Feed(Running(hist[i]), text[i]) == Running(hist[i + 1])
  }

  ghost predicate Trace(hist: seq<Core>, text: string) {
    |hist| == |text| + 1 && forall i | 0 <= i < |text| :: StepAt(hist, text, i)
  }

  /** The parser takes `text` from m to m' without finishing the document. */
  ghost predicate Goes(m: Core, text: string, m': Core) {
    exists hist :: Trace(hist, text) && hist[0] == m && hist[|text|] == m'
  }

  lemma GoesNone(m: Core)
    ensures Goes(m, "", m)
  {
    assert Trace([m], "");
  }

  lemma GoesOne(m: Core, c: char, m': Core)
    requires ParserChar(m, c) == Go(m') && !Complete(m')
    ensures Goes(m, [c], m')
  {
    assert StepAt([m, m'], [c], 0);
    assert Trace([m, m'], [c]);
  }

  lemma SameStep(h1: seq<Core>, a: string, i: nat, h: seq<Core>, text: string, k: nat)
    requires |h1| == |a| + 1 && i < |a| && |h| == |text| + 1 && k < |text|
    requires StepAt(h1, a, i) && h[k] == h1[i] && h[k + 1] == h1[i + 1] && text[k] == a[i]
    ensures StepAt(h, text, k)
  {
  }

  lemma GoesTrans(m: Core, a: string, m1: Core, b: string, m2: Core)
    requires Goes(m, a, m1) && Goes(m1, b, m2)
    ensures Goes(m, a + b, m2)
  {
    var h1 :| Trace(h1, a) && h1[0] == m && h1[|a|] == m1;
    var h2 :| Trace(h2, b) && h2[0] == m1 && h2[|b|] == m2;
    var h := h1 + h2[1..];
    forall i | 0 <= i < |a + b|
      ensures StepAt(h, a + b, i)
    {
      if i < |a| {
        SameStep(h1, a, i, h, a + b, i);
      } else {
        SameStep(h2, b, i - |a|, h, a + b, i);
      }
    }
    assert Trace(h, a + b);
  }

  lemma {:induction false} TraceFeeds(hist: seq<Core>, text: string)
    requires Trace(hist, text)
    ensures FeedAll(Running(hist[0]), text) == Running(hist[|text|])
    decreases |text|
  {
    if text != "" {
      assert StepAt(hist, text, 0);
      forall i | 0 <= i < |text[1..]|
        ensures StepAt(hist[1..], text[1..], i)
      {
        assert StepAt(hist, text, i + 1);
      }
      TraceFeeds(hist[1..], text[1..]);
    }
  }

  lemma GoesFeeds(m: Core, text: string, m': Core)
    requires Goes(m, text, m')
    ensures FeedAll(Running(m), text) == Running(m')
  {
    var hist :| Trace(hist, text) && hist[0] == m && hist[|text|] == m';
    TraceFeeds(hist, text);
  }

  lemma FeedOne(s: Status, c: char)
    ensures FeedAll(s, [c]) == Feed(s, c)
  {
    assert [c][1..] == "";
  }

  /** The parser with one more character in the buffer. */
  function Plus(m: Core, c: char): Core {
    m.(p := m.p.(buf := m.p.buf + [c]))
  }

  /** A character that is neither skipped nor escaped is stored, then acted on. */
  lemma StoredThenActed(m: Core, c: char, k: Class, e: Entry)
    requires !m.p.escaped && !m.p.comment && ClassOf(c) == Some(k) && Next(m.p.state, k) == e
    requires m.p.kind != NoType || !(k.SPACE? || k.WHITE?)
    ensures ParserChar(m, c) == Act(Plus(m, c), e)
  {
  }

  /** Inside a string value or key, between characters. */
  predicate InString(m: Core) {
    m.p.state == ST && m.p.kind == StringType && !m.p.escaped && !m.p.comment && m.p.hi == 0
  }

  function WithBuf(m: Core, s: State, buf: string): Core {
    m.(p := m.p.(state := s, buf := buf))
  }

  lemma EscapeLetter(m: Core, x: char, out: string, s: State)
    requires InString(m) && Unescaped(x) == Some(out) && ClassOf(x).Some? && Next(ES, ClassOf(x).value) == To(s)
    requires s == ST || s == U1
    ensures Goes(m, "\\" + [x], WithBuf(m, s, m.p.buf + out))
  {
    var m1 := m.(p := m.p.(escaped := true, state := ES, buf := m.p.buf + "\\"));
    assert AddChar(m.p, '\\', BACKS) == Go(m.p.(buf := m.p.buf + ['\\']));
    GoesOne(m, '\\', m1);
    assert m1.p.buf[..|m1.p.buf| - 1] == m.p.buf;
    assert AddChar(m1.p, x, ClassOf(x).value) == Go(m1.p.(escaped := false, buf := m.p.buf + out));
    GoesOne(m1, x, WithBuf(m, s, m.p.buf + out));
    GoesTrans(m, "\\", m1, [x], WithBuf(m, s, m.p.buf + out));
  }

  /** A buffered character that only moves the state. */
  lemma PlainStep(m: Core, c: char, s: State)
    requires !m.p.escaped && !m.p.comment && m.p.kind != NoType
    requires ClassOf(c).Some? && Next(m.p.state, ClassOf(c).value) == To(s)
    requires m.depth != 0 || s != OK
    ensures Goes(m, [c], WithBuf(m, s, m.p.buf + [c]))
  {
    StoredThenActed(m, c, ClassOf(c).value, To(s));
    GoesOne(m, c, WithBuf(m, s, m.p.buf + [c]));
  }

  // ---- \uXXXX

  const LOWER_DIGITS: string := "0123456789abcdef"
  const UPPER_DIGITS: string := "0123456789ABCDEF"

  /** The decoder reads each digit, in either letter case, as its place in the row of digits. */
  lemma HexDigitsRead(i: nat)
    requires i < 16
    ensures |LOWER_DIGITS| == |UPPER_DIGITS| == 16
    ensures HexValue(LOWER_DIGITS[i]) == i == HexValue(UPPER_DIGITS[i])
  {
  }

  /** Hexadecimal digits are the characters of the two rows. */
  lemma HexCharsAreDigits(c: char)
    ensures |LOWER_DIGITS| == |UPPER_DIGITS| == 16
    ensures HexChar(c) <==> exists i :: 0 <= i < 16 && (LOWER_DIGITS[i] == c || UPPER_DIGITS[i] == c)
  {
    if HexChar(c) {
      HexDigitAt(c);
    }
  }

  lemma HexDigitAt(c: char)
    requires HexChar(c)
    ensures |LOWER_DIGITS| == |UPPER_DIGITS| == 16 && HexValue(c) < 16
    ensures LOWER_DIGITS[HexValue(c)] == c || UPPER_DIGITS[HexValue(c)] == c
  {
  }

  /** The place of a digit in its row. */
  ghost function Nibble(c: char): (i: nat)
    requires HexChar(c)
    ensures i < 16 && (LOWER_DIGITS[i] == c || UPPER_DIGITS[i] == c)
    ensures HexValue(c) == i
  {
    HexCharsAreDigits(c);
    var i :| 0 <= i < 16 && (LOWER_DIGITS[i] == c || UPPER_DIGITS[i] == c);
    HexDigitsRead(i);
    i
  }

  predicate HexText(x: string) {
    |x| == 4 && HexChar(x[0]) && HexChar(x[1]) && HexChar(x[2]) && HexChar(x[3])
  }

  /** The number four hexadecimal digits stand for. */
  ghost function CodeUnit(x: string): (u: nat)
    requires HexText(x)
    ensures u < 0x10000
    ensures u == HexValue(x[0]) * 0x1000 + HexValue(x[1]) * 0x100 + HexValue(x[2]) * 0x10 + HexValue(x[3])
  {
    Nibble(x[0]) * 0x1000 + Nibble(x[1]) * 0x100 + Nibble(x[2]) * 0x10 + Nibble(x[3])
  }

  lemma HexRange(c: char)
    requires HexChar(c)
    ensures HexValue(c) < 16
  {
    var _ := Nibble(c);
  }

  /** The table's hexadecimal classes are exactly the hexadecimal digits. */
  lemma HexClassOf(c: char)
    ensures HexChar(c) <==> ClassOf(c).Some? && IsHex(ClassOf(c).value)
  {
  }

  /** Waiting for the first hexadecimal digit of an escape. */
  predicate AtHex(m: Core) {
    m.p.state == U1 && m.p.kind == StringType && !m.p.escaped && !m.p.comment
  }

  /** One digit that is not the last only moves on. */
  lemma OneHex(m: Core, c: char, s: State)
    requires m.p.kind == StringType && !m.p.escaped && !m.p.comment && HexChar(c)
    requires (m.p.state == U1 && s == U2) || (m.p.state == U2 && s == U3) || (m.p.state == U3 && s == U4)
    ensures Goes(m, [c], WithBuf(m, s, m.p.buf + [c]))
  {
    HexClassOf(c);
    HexRow(m.p.state, ClassOf(c).value, s);
    PlainStep(m, c, s);
  }

  lemma HexRow(from: State, k: Class, s: State)
    requires IsHex(k) && ((from == U1 && s == U2) || (from == U2 && s == U3) || (from == U3 && s == U4))
    ensures Next(from, k) == To(s)
  {
  }

  lemma TwoHex(m: Core, x: string)
    requires AtHex(m) && HexText(x)
    ensures Goes(m, x[..2], WithBuf(m, U3, m.p.buf + x[..2]))
  {
    var b := m.p.buf;
    var m1 := WithBuf(m, U2, b + [x[0]]);
    OneHex(m, x[0], U2);
    OneHex(m1, x[1], U3);
    assert b + [x[0]] + [x[1]] == b + x[..2] && x[..2] == [x[0]] + [x[1]];
    GoesTrans(m, [x[0]], m1, [x[1]], WithBuf(m, U3, b + x[..2]));
  }

  lemma ThreeHex(m: Core, x: string)
    requires AtHex(m) && HexText(x)
    ensures Goes(m, x[..3], WithBuf(m, U4, m.p.buf + x[..3]))
  {
    var b := m.p.buf;
    var m2 := WithBuf(m, U3, b + x[..2]);
    TwoHex(m, x);
    OneHex(m2, x[2], U4);
    assert b + x[..2] + [x[2]] == b + x[..3] && x[..3] == x[..2] + [x[2]];
    GoesTrans(m, x[..2], m2, [x[2]], WithBuf(m, U4, b + x[..3]));
  }

  /** The parser takes all of `text` but the last character, which it rejects. */
  ghost predicate Refused(m: Core, text: string) {
    text != "" && exists m1 :: Goes(m, text[..|text| - 1], m1) && Feed(Running(m1), text[|text| - 1]) == Error
  }

  lemma RefusedFeeds(m: Core, text: string)
    requires Refused(m, text)
    ensures FeedAll(Running(m), text) == Error
  {
    var front, c := text[..|text| - 1], text[|text| - 1];
    var m1 :| Goes(m, front, m1) && Feed(Running(m1), c) == Error;
    GoesFeeds(m, front, m1);
    FeedConcat(Running(m), front, [c]);
    FeedOne(Running(m1), c);
    assert text == front + [c];
  }

  lemma RefusedLater(m: Core, a: string, m1: Core, b: string)
    requires Goes(m, a, m1) && Refused(m1, b)
    ensures Refused(m, a + b)
  {
    var front := b[..|b| - 1];
    var m2 :| Goes(m1, front, m2) && Feed(Running(m2), b[|b| - 1]) == Error;
    GoesTrans(m, a, m1, front, m2);
    assert (a + b)[..|a + b| - 1] == a + front;
  }

  lemma UnicodeChar(m: Core, c: char)
    requires m.p.state == U4 && m.p.kind == StringType && !m.p.escaped && !m.p.comment
    requires ClassOf(c).Some? && IsHex(ClassOf(c).value)
    ensures ParserChar(m, c) == OnUnicode(WithBuf(m, U4, m.p.buf + [c]))
  {
    UnicodeRow(ClassOf(c).value);
    StoredThenActed(m, c, ClassOf(c).value, Unicode);
  }

  lemma UnicodeRow(k: Class)
    requires IsHex(k)
    ensures Next(U4, k) == Unicode
  {
  }

  /** Four digits after backslash-u: exactly what the decoder makes of them. */
  lemma FourHex(m: Core, x: string, o: Outcome<Core>)
    requires AtHex(m) && HexText(x) && o == OnUnicode(WithBuf(m, U4, m.p.buf + x))
    ensures o.Go? && !Complete(o.v) ==> Goes(m, x, o.v)
    ensures o.Reject? ==> Refused(m, x)
  {
    var m3 := WithBuf(m, U4, m.p.buf + x[..3]);
    assert Goes(m, x[..3], m3) by {
      ThreeHex(m, x);
    }
    HexClassOf(x[3]);
    UnicodeChar(m3, x[3]);
    assert m.p.buf + x[..3] + [x[3]] == m.p.buf + x && x == x[..3] + [x[3]];
    if o.Go? && !Complete(o.v) {
      GoesOne(m3, x[3], o.v);
      GoesTrans(m, x[..3], m3, [x[3]], o.v);
    } else if o.Reject? {
      assert x[..|x| - 1] == x[..3] && Feed(Running(m3), x[|x| - 1]) == Error;
    }
  }

  /** What the decoder does to a buffer that ends in an escape. */
  lemma DecodeEscape(p: Parser, front: string, x: string)
    requires HexText(x) && p.buf == front + "\\u" + x
    ensures var u := CodeUnit(x);
            DecodeUnicode(p) ==
            if p.hi != 0 then
              if LowSurrogate(u) then Go(p.(hi := 0, buf := front + Utf8(FromPair(p.hi, u), 3))) else Reject
            else if HighSurrogate(u) then Go(p.(hi := u, buf := front))
            else if LowSurrogate(u) then Reject
            else Go(p.(buf := front + Utf8(u, if u < 0x80 then 0 else if u < 0x800 then 1 else 2)))
  {
    var n := |p.buf|;
    assert p.buf[..n - 6] == front;
    assert p.buf[n - 4] == x[0] && p.buf[n - 3] == x[1] && p.buf[n - 2] == x[2] && p.buf[n - 1] == x[3];
    HexRange(x[0]);
    HexRange(x[1]);
    HexRange(x[2]);
    HexRange(x[3]);
  }

  function Escaped(x: string): string {
    "\\u" + x
  }

  /** A lone escape: its UTF-8 bytes, a pending high surrogate, or rejection. */
  lemma SingleEscape(m: Core, x: string)
    requires InString(m) && HexText(x)
    ensures var u := CodeUnit(x);
            if HighSurrogate(u) then Goes(m, Escaped(x), m.(p := m.p.(state := D1, hi := u)))
            else if LowSurrogate(u) then Refused(m, Escaped(x))
            else Goes(m, Escaped(x), WithBuf(m, ST, m.p.buf + Utf8(u, Trail(u))))
  {
    var u, m1 := CodeUnit(x), WithBuf(m, U1, m.p.buf + "\\u");
    var m2 := if HighSurrogate(u) then m.(p := m.p.(state := D1, hi := u))
              else if LowSurrogate(u) then m else WithBuf(m, ST, m.p.buf + Utf8(u, Trail(u)));
    EscapeLetter(m, 'u', "\\u", U1);
    assert "\\" + ['u'] == "\\u";
    SingleDecodes(m, x);
    FourHex(m1, x, if LowSurrogate(u) then Reject else Go(m2));
    if LowSurrogate(u) {
      RefusedLater(m, "\\u", m1, x);
    } else {
      GoesTrans(m, "\\u", m1, x, m2);
    }
  }

  lemma SingleDecodes(m: Core, x: string)
    requires InString(m) && HexText(x)
    ensures var u := CodeUnit(x);
            OnUnicode(WithBuf(m, U4, m.p.buf + "\\u" + x)) ==
            if HighSurrogate(u) then Go(m.(p := m.p.(state := D1, hi := u)))
            else if LowSurrogate(u) then Reject
            else Go(WithBuf(m, ST, m.p.buf + Utf8(u, Trail(u))))
  {
    DecodeEscape(WithBuf(m, U4, m.p.buf + "\\u" + x).p, m.p.buf, x);
  }

  /** After a high surrogate: a low one completes the pair, anything else is rejected. */
  lemma SecondEscape(m: Core, x: string)
    requires m.p.state == D1 && m.p.kind == StringType && !m.p.escaped && !m.p.comment
    requires HighSurrogate(m.p.hi) && HexText(x)
    ensures if LowSurrogate(CodeUnit(x)) then Goes(m, Escaped(x), Paired(m, CodeUnit(x))) else Refused(m, Escaped(x))
  {
    var m1 := WithBuf(m, U1, m.p.buf + "\\u");
    var o := if LowSurrogate(CodeUnit(x)) then Go(Paired(m, CodeUnit(x))) else Reject;
    EnterSecond(m);
    SecondDecodes(m, x);
    FourHex(m1, x, o);
    if o.Go? {
      GoesTrans(m, "\\u", m1, x, o.v);
    } else {
      RefusedLater(m, "\\u", m1, x);
    }
  }

  /** The pending high surrogate and a low one, decoded. */
  function Paired(m: Core, lo: nat): Core
    requires HighSurrogate(m.p.hi) && LowSurrogate(lo)
  {
    m.(p := m.p.(state := ST, hi := 0, buf := m.p.buf + Utf8(FromPair(m.p.hi, lo), 3)))
  }

  lemma SecondDecodes(m: Core, x: string)
    requires HighSurrogate(m.p.hi) && HexText(x)
    ensures OnUnicode(WithBuf(m, U4, m.p.buf + "\\u" + x)) ==
            if LowSurrogate(CodeUnit(x)) then Go(Paired(m, CodeUnit(x))) else Reject
  {
    DecodeEscape(WithBuf(m, U4, m.p.buf + "\\u" + x).p, m.p.buf, x);
  }

  lemma SecondBackslash(m: Core)
    requires m.p.state == D1 && m.p.kind == StringType && !m.p.escaped && !m.p.comment
    ensures Goes(m, ['\\'], WithBuf(m, D2, m.p.buf + ['\\']))
  {
    PlainStep(m, '\\', D2);
  }

  lemma SecondLetter(m: Core)
    requires m.p.state == D2 && m.p.kind == StringType && !m.p.escaped && !m.p.comment
    ensures Goes(m, ['u'], WithBuf(m, U1, m.p.buf + ['u']))
  {
    PlainStep(m, 'u', U1);
  }

  lemma EnterSecond(m: Core)
    requires m.p.state == D1 && m.p.kind == StringType && !m.p.escaped && !m.p.comment
    ensures Goes(m, "\\u", WithBuf(m, U1, m.p.buf + "\\u"))
  {
    var m1 := WithBuf(m, D2, m.p.buf + ['\\']);
    SecondBackslash(m);
    SecondLetter(m1);
    assert m.p.buf + ['\\'] + ['u'] == m.p.buf + "\\u";
    GoesTrans(m, ['\\'], m1, ['u'], WithBuf(m, U1, m.p.buf + "\\u"));
    assert ['\\'] + ['u'] == "\\u";
  }

  /** A pending high surrogate accepts nothing but another escape. */
  lemma PairMustContinue(m: Core, c: char)
    requires m.p.state == D1 && m.p.kind == StringType && !m.p.escaped && !m.p.comment && c != '\\'
    ensures Feed(Running(m), c) == Error
  {
  }

  /** The letters of section 7 of RFC 8259, and the codes of the characters they stand for. */
  lemma EscapeLettersMean(c: char)
    ensures Unescaped(c).Some? <==> c in "bfnrtu\"\\/"
    ensures Unescaped('b') == Some([8 as char]) && Unescaped('t') == Some([9 as char])
    ensures Unescaped('n') == Some([10 as char]) && Unescaped('f') == Some([12 as char])
    ensures Unescaped('r') == Some([13 as char])
    ensures c in "\"\\/" ==> Unescaped(c) == Some([c])
  {
  }

  // ---- the encoding is UTF-8

  predicate Continuation(c: char) {
    0x80 <= c as int < 0xC0
  }

  /** Read one code point by the table of section 3 of RFC 3629; shortest forms only. */
  function FromUtf8(s: string): Option<nat> {
    if |s| == 1 && s[0] as int < 0x80 then
      Some(s[0] as int)
    else if |s| == 2 && 0xC0 <= s[0] as int < 0xE0 && Continuation(s[1]) then
      Shortest((s[0] as int - 0xC0) * 0x40 + (s[1] as int - 0x80), 0x80)
    else if |s| == 3 && 0xE0 <= s[0] as int < 0xF0 && Continuation(s[1]) && Continuation(s[2]) then
      Shortest((s[0] as int - 0xE0) * 0x1000 + (s[1] as int - 0x80) * 0x40 + (s[2] as int - 0x80), 0x800)
    else if |s| == 4 && 0xF0 <= s[0] as int < 0xF8
            && Continuation(s[1]) && Continuation(s[2]) && Continuation(s[3]) then
      Shortest((s[0] as int - 0xF0) * 0x40000 + (s[1] as int - 0x80) * 0x1000
               + (s[2] as int - 0x80) * 0x40 + (s[3] as int - 0x80), 0x10000)
    else None
  }

  function Shortest(u: nat, least: nat): Option<nat> {
    if u < least || u > 0x10FFFF || 0xD800 <= u < 0xE000 then None else Some(u)
  }

  function Trail(u: nat): nat {
    if u < 0x80 then 0 else if u < 0x800 then 1 else if u < 0x10000 then 2 else 3
  }

  lemma Utf8ReadsBack(u: nat)
    requires u <= 0x10FFFF && !(0xD800 <= u < 0xE000)
    ensures FromUtf8(Utf8(u, Trail(u))) == Some(u)
  {
    if u >= 0x10000 {
      FourByteParts(u);
    } else if u >= 0x800 {
      assert u / 0x40 / 0x40 == u / 0x1000;
    }
  }

  lemma FourByteParts(u: nat)
    ensures u == u / 0x40000 * 0x40000 + u / 0x1000 % 0x40 * 0x1000 + u / 0x40 % 0x40 * 0x40 + u % 0x40
  {
    assert u / 0x40 / 0x40 == u / 0x1000 && u / 0x1000 / 0x40 == u / 0x40000;
  }

  /** The two surrogates of a supplementary code point. */
  function HighOf(u: nat): nat
    requires 0x10000 <= u <= 0x10FFFF
  {
    0xD800 + (u - 0x10000) / 0x400
  }

  function LowOf(u: nat): nat
    requires 0x10000 <= u <= 0x10FFFF
  {
    0xDC00 + (u - 0x10000) % 0x400
  }

  lemma PairRoundTrip(u: nat)
    requires 0x10000 <= u <= 0x10FFFF
    ensures HighSurrogate(HighOf(u)) && LowSurrogate(LowOf(u)) && FromPair(HighOf(u), LowOf(u)) == u
  {
  }

  lemma PairsAreSupplementary(hi: nat, lo: nat)
    requires HighSurrogate(hi) && LowSurrogate(lo)
    ensures 0x10000 <= FromPair(hi, lo) <= 0x10FFFF
    ensures HighOf(FromPair(hi, lo)) == hi && LowOf(FromPair(hi, lo)) == lo
  {
  }

  /**
   * The escape of a code point in the basic plane, in either letter case, leaves exactly that
   * code point's UTF-8 bytes in the buffer, and never more bytes than the escape took.
   */
  lemma EscapeDecodesToUtf8(m: Core, x: string) returns (bytes: string)
    requires InString(m) && HexText(x) && !HighSurrogate(CodeUnit(x)) && !LowSurrogate(CodeUnit(x))
    ensures Goes(m, Escaped(x), WithBuf(m, ST, m.p.buf + bytes))
    ensures FromUtf8(bytes) == Some(CodeUnit(x)) && |bytes| <= |Escaped(x)|
  {
    bytes := Utf8(CodeUnit(x), Trail(CodeUnit(x)));
    SingleEscape(m, x);
    Utf8ReadsBack(CodeUnit(x));
  }

  /** The same for a code point escaped as a surrogate pair. */
  lemma PairDecodesToUtf8(m: Core, x: string, y: string) returns (bytes: string)
    requires InString(m) && HexText(x) && HexText(y) && HighSurrogate(CodeUnit(x)) && LowSurrogate(CodeUnit(y))
    ensures Goes(m, Escaped(x) + Escaped(y), WithBuf(m, ST, m.p.buf + bytes))
    ensures FromUtf8(bytes) == Some(FromPair(CodeUnit(x), CodeUnit(y))) && |bytes| <= |Escaped(x) + Escaped(y)|
  {
    var u := FromPair(CodeUnit(x), CodeUnit(y));
    PairsAreSupplementary(CodeUnit(x), CodeUnit(y));
    bytes := Utf8(u, 3);
    PairedEscape(m, x, y);
    Utf8ReadsBack(u);
  }

  /** A lone low surrogate, and a high one that no low one follows, are rejected. */
  lemma BadSurrogatesRefused(m: Core, x: string, y: string)
    requires InString(m) && HexText(x) && HexText(y)
    ensures LowSurrogate(CodeUnit(x)) ==> FeedAll(Running(m), Escaped(x)) == Error
    ensures HighSurrogate(CodeUnit(x)) && !LowSurrogate(CodeUnit(y)) ==>
         FeedAll(Running(m), Escaped(x) + Escaped(y)) == Error
  {
    SingleEscape(m, x);
    if LowSurrogate(CodeUnit(x)) {
      RefusedFeeds(m, Escaped(x));
    }
    if HighSurrogate(CodeUnit(x)) && !LowSurrogate(CodeUnit(y)) {
      var m1 := m.(p := m.p.(state := D1, hi := CodeUnit(x)));
      SecondEscape(m1, y);
      RefusedLater(m, Escaped(x), m1, Escaped(y));
      RefusedFeeds(m, Escaped(x) + Escaped(y));
    }
  }

  lemma PairedEscape(m: Core, x: string, y: string)
    requires InString(m) && HexText(x) && HexText(y) && HighSurrogate(CodeUnit(x)) && LowSurrogate(CodeUnit(y))
    ensures Goes(m, Escaped(x) + Escaped(y), WithBuf(m, ST, m.p.buf + Utf8(FromPair(CodeUnit(x), CodeUnit(y)), 3)))
  {
    var m1 := m.(p := m.p.(state := D1, hi := CodeUnit(x)));
    SingleEscape(m, x);
    SecondEscape(m1, y);
    GoesTrans(m, Escaped(x), m1, Escaped(y), Paired(m1, CodeUnit(y)));
  }
}

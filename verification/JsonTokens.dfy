/** How the parser reads back white space, quoted strings, keywords and integers. */
module JsonTokens {
  import opened Helpers
  import opened JsonTable
  import opened JsonValue
  import opened JsonParser
  import opened JsonPrinter
  import opened JsonStrings

  // ---- what can be printed and read back

  predicate NulFree(s: string) {
    forall k | 0 <= k < |s| :: s[k] != '\0'
  }

  predicate DistinctKeys(ms: seq<Member>) {
    forall i, j | 0 <= i < j < |ms| :: ms[i].key != ms[j].key
  }

  /** The parts of a number with a fraction or an exponent. */
  datatype FloatParts = FloatParts(neg: bool, whole: nat, frac: string, exp: string) {
    /** A number by section 6 of RFC 8259 that is not a plain integer. */
    predicate IsJson() {
      AllDigits(frac) && (exp == "" || IsExponent(exp)) && (frac != "" || exp != "")
    }

    /** The table takes an exponent only after a whole part other than zero, or a fraction. */
    predicate Valid() {
      IsJson() && (frac != "" || whole != 0)
    }

    function Whole(): string {
      (if neg then "-" else "") + Digits(whole)
    }

    function Fraction(): string {
      if frac == "" then "" else "." + frac
    }

    function Text(): string {
      Whole() + Fraction() + exp
    }
  }

  predicate AllDigits(s: string) {
    forall k | 0 <= k < |s| :: Digit(s[k])
  }

  predicate IsExponent(e: string) {
    && |e| >= 2 && (e[0] == 'e' || e[0] == 'E')
    && if e[1] == '+' || e[1] == '-' then |e| >= 3 && AllDigits(e[2..]) else AllDigits(e[1..])
  }

  ghost predicate FloatText(text: string) {
    exists f: FloatParts :: f.Valid() && f.Text() == text
  }

  ghost predicate Printable(v: Value) {
    match v
    case Null => true
    case Bool(_) => true
    case Number(_) => true
    case Float(literal) => FloatText(literal)
    case Str(s) => NulFree(s)
    case Array(es) => forall i | 0 <= i < |es| :: Printable(es[i])
    case Object(ms) =>
      DistinctKeys(ms) && forall i | 0 <= i < |ms| :: NulFree(ms[i].key) && Printable(ms[i].value)
  }

  // ---- builder facts

  lemma AddToArray(b: Builder, xs: seq<Value>, v: Value)
    ensures AddValue(b.Push(Array(xs)), v) == Some(b.Push(Array(xs + [v])))
  {
    var c := b.Push(Array(xs));
    assert c.stack[|c.stack| - 1 := Array(xs + [v])] == b.stack + [Array(xs + [v])];
  }

  lemma {:induction false} PutFresh(ms: seq<Member>, key: string, v: Value)
    requires forall i | 0 <= i < |ms| :: ms[i].key != key
    ensures Find(ms, key) == None && Put(ms, key, v) == ms + [Member(key, v)]
  {
    if ms != [] {
      assert ms[0].key != key;
      PutFresh(ms[1..], key, v);
    }
  }

  lemma AddToObject(b: Builder, ms: seq<Member>, key: string, v: Value)
    requires forall i | 0 <= i < |ms| :: ms[i].key != key
    ensures var c := b.Push(Object(ms));
            AddValue(c.(keys := b.keys + [key]), v) == Some(b.Push(Object(ms + [Member(key, v)])))
  {
    PutFresh(ms, key, v);
    var c := b.Push(Object(ms));
    assert c.stack[|c.stack| - 1 := Object(ms + [Member(key, v)])] == b.stack + [Object(ms + [Member(key, v)])];
    assert (b.keys + [key])[..|b.keys|] == b.keys;
  }

  /** A key is bound once; only a binding to null may be replaced. */
  lemma KeysBindOnce(b: Builder, ms: seq<Member>, key: string, v: Value)
    ensures var c := b.Push(Object(ms)).(keys := b.keys + [key]);
            && (AddValue(c, v).Some? <==> Find(ms, key) == None || Find(ms, key) == Some(Value.Null))
            && (AddValue(c, v).Some? ==> AddValue(c, v).value == b.Push(Object(Put(ms, key, v))))
  {
    var c := b.Push(Object(ms));
    assert c.stack[|c.stack| - 1 := Object(Put(ms, key, v))] == b.stack + [Object(Put(ms, key, v))];
    assert (b.keys + [key])[..|b.keys|] == b.keys;
  }

  lemma CloseOpened(b: Builder, v: Value)
    requires v.Array? || v.Object?
    ensures CloseContainer(b.Push(v), v.Array?) == AddValue(b, v)
  {
    assert (b.stack + [v])[..|b.stack|] == b.stack;
  }

  // ---- where the parser is between tokens

  predicate Quiet(m: Core) {
    !m.p.escaped && !m.p.comment && m.p.hi == 0
  }

  /** Expecting a token, with nothing pending. */
  predicate Between(m: Core) {
    Quiet(m) && m.p.kind == NoType && m.p.buf == ""
  }

  /** After a keyword, or in a number that may end here. */
  predicate EndsValue(s: State) {
    s == OK || s == ZE || s == IT || s == FR || s == E3
  }

  /** Just after a value, which may still be pending in the buffer. */
  predicate AtEnd(m: Core) {
    && Quiet(m) && m.p.kind != StringType && EndsValue(m.p.state)
    && (m.p.kind == NoType ==> m.p.buf == "" && m.p.state == OK)
  }

  /** The builder once the pending scalar, if any, has been reported. */
  predicate Settles(m: Core, b: Builder) {
    if m.p.kind == NoType then m.b == b else AddValue(m.b, PendingValue(m.p.kind, m.p.buf)) == Some(b)
  }

  lemma FlushSettles(m: Core, b: Builder)
    requires Settles(m, b)
    ensures Flush(m) == Go(m.(p := m.p.(buf := ""), b := b))
  {
  }

  // ---- white space

  predicate Blank(s: string) {
    forall k | 0 <= k < |s| :: White(s[k])
  }

  predicate Skips(s: State) {
    s == GO || s == VA || s == AR || s == KE || s == OB || s == CO
  }

  lemma WhiteClass(c: char)
    requires White(c)
    ensures ClassOf(c) == Some(if c == ' ' then SPACE else WHITE)
  {
  }

  lemma SkipRow(s: State, k: Class)
    requires Skips(s) && (k.SPACE? || k.WHITE?)
    ensures Next(s, k) == To(s)
  {
  }

  /** White space between tokens is not even stored. */
  lemma WhiteIsSkipped(m: Core, c: char)
    requires Between(m) && Skips(m.p.state) && White(c)
    ensures Goes(m, [c], m)
  {
    WhiteClass(c);
    var k := ClassOf(c).value;
    SkipRow(m.p.state, k);
    assert AddChar(m.p, c, k) == Go(m.p);
    assert m.(p := m.p) == m && m.(p := m.p.(state := m.p.state)) == m;
    GoesOne(m, c, m);
  }

  lemma {:induction false} BlankBetween(m: Core, s: string)
    requires Between(m) && Skips(m.p.state) && Blank(s)
    ensures Goes(m, s, m)
    decreases |s|
  {
    if s == "" {
      GoesNone(m);
    } else {
      WhiteIsSkipped(m, s[0]);
      BlankBetween(m, s[1..]);
      GoesTrans(m, [s[0]], m, s[1..], m);
      assert [s[0]] + s[1..] == s;
    }
  }

  lemma {:induction false} DigitsValueBlank(s: string, acc: nat, c: char)
    requires White(c)
    ensures DigitsValue(s + [c], acc) == DigitsValue(s, acc)
    decreases |s|
  {
    if s == "" {
      assert s + [c] == [c];
    } else {
      assert (s + [c])[1..] == s[1..] + [c];
      if '0' <= s[0] <= '9' {
        DigitsValueBlank(s[1..], acc * 10 + (s[0] as int - '0' as int), c);
      }
    }
  }

  lemma ScanBlank(s: string, c: char)
    requires White(c)
    ensures ScanInteger(s + [c]) == ScanInteger(s)
  {
    DigitsValueBlank(s, 0, c);
    if s != "" {
      DigitsValueBlank(s[1..], 0, c);
      assert (s + [c])[1..] == s[1..] + [c];
    }
  }

  lemma {:induction false} NumberTextBlank(s: string, c: char)
    requires White(c)
    ensures UpToWhite(s + [c]) == UpToWhite(s)
    decreases |s|
  {
    if s == "" {
      assert s + [c] == [c];
    } else {
      assert (s + [c])[1..] == s[1..] + [c];
      NumberTextBlank(s[1..], c);
    }
  }

  lemma EndRow(s: State, k: Class)
    requires EndsValue(s) && (k.SPACE? || k.WHITE?)
    ensures Next(s, k) == To(OK)
  {
  }

  lemma BlankStep(m: Core, c: char) returns (m': Core)
    requires AtEnd(m) && m.depth >= 1 && White(c)
    ensures Goes(m, [c], m') && AtEnd(m') && m'.p.stack == m.p.stack && m'.depth == m.depth
    ensures forall b | Settles(m, b) :: Settles(m', b)
  {
    WhiteClass(c);
    EndRow(m.p.state, ClassOf(c).value);
    if m.p.kind == NoType {
      m' := m;
      GoesOne(m, c, m);
    } else {
      m' := WithBuf(m, OK, m.p.buf + [c]);
      PlainStep(m, c, OK);
      ScanBlank(m.p.buf, c);
      NumberTextBlank(m.p.buf, c);
    }
  }

  lemma {:induction false} BlankAfter(m: Core, s: string) returns (m': Core)
    requires AtEnd(m) && m.depth >= 1 && Blank(s)
    ensures Goes(m, s, m') && AtEnd(m') && m'.p.stack == m.p.stack && m'.depth == m.depth
    ensures forall b | Settles(m, b) :: Settles(m', b)
    decreases |s|
  {
    if s == "" {
      m' := m;
      GoesNone(m);
    } else {
      var m1 := BlankStep(m, s[0]);
      m' := BlankAfter(m1, s[1..]);
      GoesTrans(m, [s[0]], m1, s[1..], m');
      assert [s[0]] + s[1..] == s;
    }
  }

  lemma BreakIsBlank(pretty: bool, level: nat)
    ensures Blank(Break(pretty, level))
  {
  }

  // ---- strings

  lemma PrintedDigit(n: nat)
    requires n < 16
    ensures HexChar(HexDigit(n)) && Nibble(HexDigit(n)) == n
  {
  }

  lemma ControlUnit(c: char)
    requires c < ' '
    ensures var x := ['0', '0', HexDigit(c as int / 16), HexDigit(c as int % 16)]; HexText(x) && CodeUnit(x) == c as int
  {
    PrintedDigit(0);
    PrintedDigit(c as int / 16);
    PrintedDigit(c as int % 16);
  }

  lemma EscapedControl(m: Core, c: char)
    requires InString(m) && c < ' '
    ensures Goes(m, "\\u00" + [HexDigit(c as int / 16), HexDigit(c as int % 16)], WithBuf(m, ST, m.p.buf + [c]))
  {
    var x := ['0', '0', HexDigit(c as int / 16), HexDigit(c as int % 16)];
    ControlUnit(c);
    SingleEscape(m, x);
    assert Escaped(x) == "\\u00" + [HexDigit(c as int / 16), HexDigit(c as int % 16)];
  }

  lemma EscapedChar(m: Core, c: char)
    requires InString(m) && c != '\0'
    ensures Goes(m, EscapeChar(c), WithBuf(m, ST, m.p.buf + [c]))
  {
    var letter, out := LetterFor(c), [c];
    if letter != ' ' {
      EscapeLetter(m, letter, out, ST);
      assert "\\" + [letter] == EscapeChar(c);
    } else if c < ' ' {
      EscapedControl(m, c);
    } else {
      PlainStep(m, c, ST);
    }
  }

  /** The letter of a one-letter escape, blank for characters that have none. */
  function LetterFor(c: char): char {
    if c == '\\' || c == '"' || c == '/' then c
    else if c == '\U{0008}' then 'b'
    else if c == '\U{000C}' then 'f'
    else if c == '\n' then 'n'
    else if c == '\r' then 'r'
    else if c == '\t' then 't'
    else ' '
  }

  lemma {:induction false} EscapedText(m: Core, s: string)
    requires InString(m) && NulFree(s)
    ensures Goes(m, EscapeText(s), WithBuf(m, ST, m.p.buf + s))
    decreases |s|
  {
    if s == "" {
      GoesNone(m);
      assert m.p.buf + s == m.p.buf;
    } else {
      var m1, m2 := WithBuf(m, ST, m.p.buf + [s[0]]), WithBuf(m, ST, m.p.buf + s);
      assert Goes(m, EscapeChar(s[0]), m1) by {
        EscapedChar(m, s[0]);
      }
      assert Goes(m1, EscapeText(s[1..]), m2) by {
        EscapedText(m1, s[1..]);
        assert m.p.buf + [s[0]] + s[1..] == m.p.buf + s;
      }
      GoesTrans(m, EscapeChar(s[0]), m1, EscapeText(s[1..]), m2);
    }
  }

  lemma {:induction false} CStringOfNulFree(s: string)
    requires NulFree(s)
    ensures CString(s) == s
  {
    CStringPrefix(s, |s|);
  }

  function Opened(m: Core): Core {
    m.(p := m.p.(kind := StringType, state := ST, buf := ""))
  }

  lemma OpenString(m: Core)
    requires Between(m) && (m.p.state == VA || m.p.state == AR || m.p.state == KE || m.p.state == OB)
    ensures Goes(m, "\"", Opened(m))
  {
    QuoteRow(m.p.state);
    StoredThenActed(m, '"', QUOTE, StringBegin);
    GoesOne(m, '"', Opened(m));
  }

  lemma QuoteRow(s: State)
    requires s == VA || s == AR || s == KE || s == OB
    ensures ClassOf('"') == Some(QUOTE) && Next(s, QUOTE) == StringBegin
  {
  }

  /** The opening quote and the escaped text. */
  lemma StringBody(m: Core, s: string)
    requires Between(m) && (m.p.state == VA || m.p.state == AR || m.p.state == KE || m.p.state == OB) && NulFree(s)
    ensures Goes(m, "\"" + EscapeText(s), WithBuf(Opened(m), ST, s))
  {
    OpenString(m);
    EscapedText(Opened(m), s);
    assert "" + s == s;
    GoesTrans(m, "\"", Opened(m), EscapeText(s), WithBuf(Opened(m), ST, s));
  }

  lemma CloseStringValue(m: Core, b: Builder)
    requires InString(m) && m.depth >= 1 && TopMode(m.p) in {Some(InArray), Some(Mode.InObject)}
    requires AddValue(m.b, Str(CString(m.p.buf))) == Some(b)
    ensures Goes(m, "\"", Core(m.p.(kind := NoType, state := OK, buf := ""), m.depth, b))
  {
    assert (m.p.buf + ['"'])[..|m.p.buf|] == m.p.buf;
    GoesOne(m, '"', Core(m.p.(kind := NoType, state := OK, buf := ""), m.depth, b));
  }

  lemma CloseStringKey(m: Core)
    requires InString(m) && TopMode(m.p) == Some(AtKey) && m.b.InObject()
    ensures Goes(m, "\"", Core(m.p.(kind := NoType, state := CO, buf := ""), m.depth,
                               m.b.(keys := m.b.keys + [CString(m.p.buf)])))
  {
    assert (m.p.buf + ['"'])[..|m.p.buf|] == m.p.buf;
    GoesOne(m, '"', Core(m.p.(kind := NoType, state := CO, buf := ""), m.depth,
                         m.b.(keys := m.b.keys + [CString(m.p.buf)])));
  }

  /** A quoted string where a value is expected. */
  lemma FeedString(m: Core, s: string, b: Builder)
    requires Between(m) && (m.p.state == VA || m.p.state == AR) && m.depth >= 1 && NulFree(s)
    requires TopMode(m.p) in {Some(InArray), Some(Mode.InObject)} && AddValue(m.b, Str(s)) == Some(b)
    ensures Goes(m, Quoted(s), Core(m.p.(state := OK), m.depth, b))
  {
    CStringOfNulFree(s);
    StringBody(m, s);
    CloseStringValue(WithBuf(Opened(m), ST, s), b);
    GoesTrans(m, "\"" + EscapeText(s), WithBuf(Opened(m), ST, s), "\"", Core(m.p.(state := OK), m.depth, b));
  }

  /** A quoted string where a key is expected. */
  lemma FeedKey(m: Core, s: string)
    requires Between(m) && (m.p.state == KE || m.p.state == OB) && NulFree(s)
    requires TopMode(m.p) == Some(AtKey) && m.b.InObject()
    ensures Goes(m, Quoted(s), Core(m.p.(state := CO), m.depth, m.b.(keys := m.b.keys + [s])))
  {
    CStringOfNulFree(s);
    StringBody(m, s);
    CloseStringKey(WithBuf(Opened(m), ST, s));
    GoesTrans(m, "\"" + EscapeText(s), WithBuf(Opened(m), ST, s), "\"",
              Core(m.p.(state := CO), m.depth, m.b.(keys := m.b.keys + [s])));
  }

  // ---- keywords and integers

  predicate Step(s: State, c: char, s': State) {
    ClassOf(c).Some? && Next(s, ClassOf(c).value) == To(s')
  }

  /** The states a run of buffered characters moves through. */
  predicate Moves(s: State, text: string, ss: seq<State>) {
    && |ss| == |text|
    && (text != "" ==> Step(s, text[0], ss[0]))
    && forall k {:trigger text[k]} | 1 <= k < |text| :: Step(ss[k - 1], text[k], ss[k])
  }

  lemma {:induction false} Letters(m: Core, text: string, ss: seq<State>)
    requires !m.p.escaped && !m.p.comment && m.p.kind != NoType && m.depth >= 1
    requires text != "" && Moves(m.p.state, text, ss)
    ensures Goes(m, text, WithBuf(m, ss[|ss| - 1], m.p.buf + text))
    decreases |text|, 1
  {
    FirstLetter(m, text, ss);
    if |text| == 1 {
      assert text == [text[0]];
    } else {
      OtherLetters(m, text, ss);
      FirstThenRest(m, text, WithBuf(m, ss[0], m.p.buf + [text[0]]), WithBuf(m, ss[|ss| - 1], m.p.buf + text));
    }
  }

  lemma {:induction false} OtherLetters(m: Core, text: string, ss: seq<State>)
    requires !m.p.escaped && !m.p.comment && m.p.kind != NoType && m.depth >= 1
    requires |text| > 1 && Moves(m.p.state, text, ss)
    ensures Goes(WithBuf(m, ss[0], m.p.buf + [text[0]]), text[1..], WithBuf(m, ss[|ss| - 1], m.p.buf + text))
    decreases |text|, 0
  {
    var m1 := WithBuf(m, ss[0], m.p.buf + [text[0]]);
    RestMoves(m.p.state, text, ss);
    Letters(m1, text[1..], ss[1..]);
    SameEnd(m, ss[0], ss[|ss| - 1], m.p.buf, text);
  }

  lemma SameEnd(m: Core, s: State, s': State, buf: string, text: string)
    requires text != ""
    ensures var m1 := WithBuf(m, s, buf + [text[0]]);
            WithBuf(m1, s', m1.p.buf + text[1..]) == WithBuf(m, s', buf + text)
  {
    assert buf + [text[0]] + text[1..] == buf + text;
  }

  lemma FirstThenRest(m: Core, text: string, m1: Core, m2: Core)
    requires text != "" && Goes(m, [text[0]], m1) && Goes(m1, text[1..], m2)
    ensures Goes(m, text, m2)
  {
    GoesTrans(m, [text[0]], m1, text[1..], m2);
    assert [text[0]] + text[1..] == text;
  }

  lemma FirstLetter(m: Core, text: string, ss: seq<State>)
    requires !m.p.escaped && !m.p.comment && m.p.kind != NoType && m.depth >= 1
    requires text != "" && Moves(m.p.state, text, ss)
    ensures Goes(m, [text[0]], WithBuf(m, ss[0], m.p.buf + [text[0]]))
  {
    PlainStep(m, text[0], ss[0]);
  }

  lemma RestMoves(s: State, text: string, ss: seq<State>)
    requires text != "" && Moves(s, text, ss)
    ensures |text| > 1 ==> Moves(ss[0], text[1..], ss[1..])
  {
    if |text| > 1 {
      assert Step(ss[0], text[1], ss[1]);
    }
  }

  function Started(m: Core, c: char, t: Type, s: State): Core {
    m.(p := m.p.(kind := t, state := s, buf := [c]))
  }

  /** The first character of a keyword or a number. */
  predicate Starts(c: char, t: Type, s: State) {
    || (c == 'n' && t == NullType && s == N1)
    || (c == 't' && t == TrueType && s == T1)
    || (c == 'f' && t == FalseType && s == F1)
    || (t == IntegerType && ((c == '-' && s == MI) || (c == '0' && s == ZE) || ('1' <= c <= '9' && s == IT)))
  }

  /** The row of a value state at a token's first character. */
  predicate StartRow(e: Entry, t: Type, s: State) {
    || (e == Entry.Null && t == NullType && s == N1) || (e == Entry.True && t == TrueType && s == T1)
    || (e == Entry.False && t == FalseType && s == F1) || (e == IntByMinus && t == IntegerType && s == MI)
    || (e == IntByZero && t == IntegerType && s == ZE) || (e == IntByDigit && t == IntegerType && s == IT)
  }

  lemma StartClass(c: char, t: Type, s: State)
    requires Starts(c, t, s)
    ensures ClassOf(c).Some?
    ensures ClassOf(c).value == if c == 'n' then LOW_N else if c == 't' then LOW_T else if c == 'f' then LOW_F
                                else if c == '-' then MINUS else if c == '0' then ZERO else DIGIT
  {
  }

  lemma StartsHere(c: char, t: Type, s: State)
    requires Starts(c, t, s)
    ensures ClassOf(c).Some? && !ClassOf(c).value.SPACE? && !ClassOf(c).value.WHITE?
    ensures var e := ValueStart(ClassOf(c).value, VA); e == ValueStart(ClassOf(c).value, AR) && StartRow(e, t, s)
  {
    StartClass(c, t, s);
  }

  lemma ValueRow(s: State, k: Class)
    requires s == VA || s == AR
    requires !k.RSQRB?
    ensures Next(s, k) == ValueStart(k, s)
  {
    match s
    case VA => case AR =>
    case _ =>
  }

  lemma StartToken(m: Core, c: char, t: Type, s: State)
    requires Between(m) && (m.p.state == VA || m.p.state == AR) && Starts(c, t, s)
    ensures Goes(m, [c], Started(m, c, t, s))
  {
    StartsHere(c, t, s);
    var k := ClassOf(c).value;
    ValueRow(m.p.state, k);
    StoredThenActed(m, c, k, ValueStart(k, m.p.state));
    StartActs(m, c, ValueStart(k, m.p.state), t, s);
    GoesOne(m, c, Started(m, c, t, s));
  }

  lemma StartActs(m: Core, c: char, e: Entry, t: Type, s: State)
    requires Between(m) && StartRow(e, t, s)
    ensures Act(Plus(m, c), e) == Go(Started(m, c, t, s))
  {
    assert "" + [c] == [c];
  }

  /** A whole token: its first character, then the rest. */
  lemma FeedToken(m: Core, c: char, t: Type, s: State, rest: string, ss: seq<State>)
    requires Between(m) && (m.p.state == VA || m.p.state == AR) && m.depth >= 1 && Starts(c, t, s)
    requires Moves(s, rest, ss)
    ensures Goes(m, [c] + rest, WithBuf(Started(m, c, t, s), if rest == "" then s else ss[|ss| - 1], [c] + rest))
  {
    StartToken(m, c, t, s);
    if rest == "" {
      assert [c] + rest == [c];
    } else {
      Letters(Started(m, c, t, s), rest, ss);
      GoesTrans(m, [c], Started(m, c, t, s), rest, WithBuf(Started(m, c, t, s), ss[|ss| - 1], [c] + rest));
    }
  }

  lemma {:induction false} DigitsValueSnoc(s: string, c: char, acc: nat)
    requires AllDigits(s) && '0' <= c <= '9'
    ensures DigitsValue(s + [c], acc) == DigitsValue(s, acc) * 10 + (c as int - '0' as int)
    decreases |s|
  {
    if s == "" {
      assert s + [c] == [c] && [c][1..] == "";
    } else {
      assert (s + [c])[1..] == s[1..] + [c];
      DigitsValueSnoc(s[1..], c, acc * 10 + (s[0] as int - '0' as int));
    }
  }

  /** Decimal digits: never empty, no leading zero, and they read back. */
  lemma {:induction false} DigitsReadBack(n: nat)
    ensures var d := Digits(n);
            d != "" && AllDigits(d) && (n > 0 ==> d[0] != '0') && DigitsValue(d, 0) == n
  {
    if n < 10 {
      assert [('0' as int + n) as char][1..] == "";
    } else {
      DigitsReadBack(n / 10);
      DigitsValueSnoc(Digits(n / 10), ('0' as int + n % 10) as char, 0);
    }
  }

  lemma DecimalReadsBack(n: int)
    ensures ScanInteger(Decimal(n)) == n
  {
    if n < 0 {
      DigitsReadBack(-n);
      assert Decimal(n)[1..] == Digits(-n);
    } else {
      DigitsReadBack(n);
    }
  }

  lemma DigitStep(c: char)
    requires '0' <= c <= '9'
    ensures Step(IT, c, IT) && (c != '0' ==> Step(MI, c, IT))
  {
  }

  lemma DigitMoves(rest: string) returns (ss: seq<State>)
    requires AllDigits(rest)
    ensures Moves(IT, rest, ss) && forall k | 0 <= k < |ss| :: ss[k] == IT
  {
    ss := seq(|rest|, _ => IT);
    forall k | 0 <= k < |rest|
      ensures Step(IT, rest[k], IT)
    {
      DigitStep(rest[k]);
    }
  }

  /** The moves of a signed number after its minus sign. */
  lemma SignedMoves(d: string) returns (ss: seq<State>)
    requires d != "" && AllDigits(d) && d[0] != '0'
    ensures Moves(MI, d, ss) && ss[|ss| - 1] == IT
  {
    ss := DigitMoves(d);
    DigitStep(d[0]);
  }

  lemma FeedNumber(m: Core, n: int) returns (s: State)
    requires Between(m) && (m.p.state == VA || m.p.state == AR) && m.depth >= 1
    ensures s == if n == 0 then ZE else IT
    ensures Goes(m, Decimal(n), m.(p := m.p.(kind := IntegerType, state := s, buf := Decimal(n))))
  {
    var d := Decimal(n);
    var rest := d[1..];
    assert d == [d[0]] + rest;
    if n == 0 {
      s := ZE;
      FeedToken(m, '0', IntegerType, ZE, "", []);
    } else if n > 0 {
      s := IT;
      DigitsReadBack(n);
      var ss := DigitMoves(rest);
      FeedToken(m, d[0], IntegerType, IT, rest, ss);
    } else {
      s := IT;
      DigitsReadBack(-n);
      assert rest == Digits(-n);
      var ss := SignedMoves(rest);
      FeedToken(m, '-', IntegerType, MI, rest, ss);
    }
  }

  // ---- fractions and exponents

  lemma {:induction false} PlainNumber(s: string)
    requires forall k | 0 <= k < |s| :: !White(s[k])
    ensures UpToWhite(s) == s
  {
    if s != "" {
      PlainNumber(s[1..]);
    }
  }

  function Number(m: Core, t: Type, s: State, text: string): Core {
    m.(p := m.p.(kind := t, state := s, buf := text))
  }

  function WholeState(whole: nat): State {
    if whole == 0 then ZE else IT
  }

  /** The whole part, with its sign. */
  lemma FeedWhole(m: Core, neg: bool, whole: nat)
    requires Between(m) && (m.p.state == VA || m.p.state == AR) && m.depth >= 1
    ensures var text := (if neg then "-" else "") + Digits(whole);
            Goes(m, text, Number(m, IntegerType, WholeState(whole), text))
  {
    if neg && whole == 0 {
      ZeroMoves();
      FeedToken(m, '-', IntegerType, MI, "0", [ZE]);
      assert ['-'] + "0" == "-" + Digits(0);
    } else {
      var n: int := whole;
      if neg {
        n := -n;
      }
      var s := FeedNumber(m, n);
      assert Decimal(n) == (if neg then "-" else "") + Digits(whole);
    }
  }

  lemma ZeroMoves()
    ensures Moves(MI, "0", [ZE])
  {
    assert Step(MI, '0', ZE);
  }

  lemma PointStep(m: Core)
    requires m.p.kind == IntegerType && (m.p.state == ZE || m.p.state == IT) && !m.p.escaped && !m.p.comment
    ensures Goes(m, ".", Number(m, FloatType, FX, m.p.buf + "."))
  {
    PointClass(m.p.state);
    StoredThenActed(m, '.', POINT, FloatByPoint);
    GoesOne(m, '.', Number(m, FloatType, FX, m.p.buf + "."));
  }

  lemma PointClass(s: State)
    requires s == ZE || s == IT
    ensures ClassOf('.') == Some(POINT) && Next(s, POINT) == FloatByPoint
  {
  }

  lemma FractionStep(c: char)
    requires Digit(c)
    ensures Step(FX, c, FR) && Step(FR, c, FR)
  {
  }

  lemma FractionMoves(digits: string) returns (ss: seq<State>)
    requires AllDigits(digits)
    ensures Moves(FX, digits, ss) && forall k | 0 <= k < |ss| :: ss[k] == FR
  {
    ss := seq(|digits|, _ => FR);
    forall k | 0 <= k < |digits|
      ensures Step(FX, digits[k], FR) && Step(FR, digits[k], FR)
    {
      FractionStep(digits[k]);
    }
  }

  lemma NumberGrows(m: Core, s0: State, s: State, buf: string, more: string)
    ensures var m0 := Number(m, FloatType, s0, buf);
            WithBuf(m0, s, m0.p.buf + more) == Number(m, FloatType, s, buf + more)
  {
  }

  lemma FeedFractionDigits(m: Core, buf: string, digits: string)
    requires !m.p.escaped && !m.p.comment && m.depth >= 1 && digits != "" && AllDigits(digits)
    ensures Goes(Number(m, FloatType, FX, buf), digits, Number(m, FloatType, FR, buf + digits))
  {
    var ss := FractionMoves(digits);
    Letters(Number(m, FloatType, FX, buf), digits, ss);
    NumberGrows(m, FX, FR, buf, digits);
  }

  /** The point and the digits after it. */
  lemma FeedFraction(m: Core, digits: string)
    requires m.p.kind == IntegerType && (m.p.state == ZE || m.p.state == IT) && !m.p.escaped && !m.p.comment
    requires m.depth >= 1 && digits != "" && AllDigits(digits)
    ensures Goes(m, "." + digits, Number(m, FloatType, FR, m.p.buf + ("." + digits)))
  {
    var b := m.p.buf;
    var m1, m2 := Number(m, FloatType, FX, b + "."), Number(m, FloatType, FR, b + "." + digits);
    assert Goes(m, ".", m1) by {
      PointStep(m);
    }
    assert Goes(m1, digits, m2) by {
      FeedFractionDigits(m, b + ".", digits);
    }
    GoesTrans(m, ".", m1, digits, m2);
    assert b + "." + digits == b + ("." + digits);
  }

  lemma ExponentClass(c: char)
    requires c == 'e' || c == 'E'
    ensures ClassOf(c).Some? && IsExp(ClassOf(c).value)
  {
  }

  lemma ExponentRow(k: Class)
    requires IsExp(k)
    ensures Next(IT, k) == FloatByExp && Next(FR, k) == To(E1)
  {
  }

  lemma ExponentLetter(m: Core, c: char)
    requires (m.p.kind == IntegerType && m.p.state == IT) || (m.p.kind == FloatType && m.p.state == FR)
    requires !m.p.escaped && !m.p.comment && (c == 'e' || c == 'E')
    ensures Goes(m, [c], Number(m, FloatType, E1, m.p.buf + [c]))
  {
    ExponentClass(c);
    var k := ClassOf(c).value;
    ExponentRow(k);
    StoredThenActed(m, c, k, if m.p.state == IT then FloatByExp else To(E1));
    GoesOne(m, c, Number(m, FloatType, E1, m.p.buf + [c]));
  }

  lemma ExponentSign(c: char)
    requires c == '+' || c == '-'
    ensures Step(E1, c, E2)
  {
  }

  lemma ExponentDigit(c: char)
    requires Digit(c)
    ensures Step(E1, c, E3) && Step(E2, c, E3) && Step(E3, c, E3)
  {
  }

  lemma ExponentMoves(e: string) returns (ss: seq<State>)
    requires IsExponent(e)
    ensures Moves(E1, e[1..], ss) && ss[|ss| - 1] == E3
  {
    var rest := e[1..];
    var signed := rest[0] == '+' || rest[0] == '-';
    ss := seq(|rest|, k => if k == 0 && signed then E2 else E3);
    if signed {
      ExponentSign(rest[0]);
    }
    forall k | (if signed then 1 else 0) <= k < |rest|
      ensures Digit(rest[k]) && Step(E1, rest[k], E3) && Step(E2, rest[k], E3) && Step(E3, rest[k], E3)
    {
      assert signed ==> rest[k] == e[2..][k - 1];
      ExponentDigit(rest[k]);
    }
  }

  lemma FeedExponentRest(m: Core, buf: string, e: string)
    requires !m.p.escaped && !m.p.comment && m.depth >= 1 && IsExponent(e)
    ensures Goes(Number(m, FloatType, E1, buf), e[1..], Number(m, FloatType, E3, buf + e[1..]))
  {
    var ss := ExponentMoves(e);
    Letters(Number(m, FloatType, E1, buf), e[1..], ss);
    NumberGrows(m, E1, E3, buf, e[1..]);
  }

  lemma FeedExponent(m: Core, e: string)
    requires (m.p.kind == IntegerType && m.p.state == IT) || (m.p.kind == FloatType && m.p.state == FR)
    requires !m.p.escaped && !m.p.comment && m.depth >= 1 && IsExponent(e)
    ensures Goes(m, e, Number(m, FloatType, E3, m.p.buf + e))
  {
    var b := m.p.buf;
    var m1, m2 := Number(m, FloatType, E1, b + [e[0]]), Number(m, FloatType, E3, b + [e[0]] + e[1..]);
    assert Goes(m, [e[0]], m1) by {
      ExponentLetter(m, e[0]);
    }
    assert Goes(m1, e[1..], m2) by {
      FeedExponentRest(m, b + [e[0]], e);
    }
    GoesTrans(m, [e[0]], m1, e[1..], m2);
    assert [e[0]] + e[1..] == e && b + [e[0]] + e[1..] == b + e;
  }

  /** The whole part and the fraction, if there is one. */
  lemma FeedMantissa(m: Core, f: FloatParts) returns (m1: Core)
    requires Between(m) && (m.p.state == VA || m.p.state == AR) && m.depth >= 1 && f.Valid()
    ensures Goes(m, f.Whole() + f.Fraction(), m1)
    ensures m1 == if f.frac == "" then Number(m, IntegerType, WholeState(f.whole), f.Whole() + f.Fraction())
                  else Number(m, FloatType, FR, f.Whole() + f.Fraction())
  {
    m1 := Number(m, IntegerType, WholeState(f.whole), f.Whole());
    FeedWhole(m, f.neg, f.whole);
    if f.frac == "" {
      assert f.Whole() + "" == f.Whole();
    } else {
      FeedFraction(m1, f.frac);
      var m2 := Number(m, FloatType, FR, f.Whole() + f.Fraction());
      GoesTrans(m, f.Whole(), m1, f.Fraction(), m2);
      m1 := m2;
    }
  }

  /** Every number with a fraction or an exponent is one float token. */
  lemma FeedFloat(m: Core, f: FloatParts) returns (s: State)
    requires Between(m) && (m.p.state == VA || m.p.state == AR) && m.depth >= 1 && f.Valid()
    ensures (s == FR || s == E3) && Goes(m, f.Text(), Number(m, FloatType, s, f.Text()))
  {
    var m1 := FeedMantissa(m, f);
    if f.exp == "" {
      s := FR;
      assert f.Whole() + f.Fraction() + "" == f.Whole() + f.Fraction();
    } else {
      s := E3;
      FeedExponent(m1, f.exp);
      GoesTrans(m, f.Whole() + f.Fraction(), m1, f.exp, Number(m, FloatType, E3, f.Text()));
    }
  }

  lemma ZeroExponentRow(k: Class)
    requires IsExp(k)
    ensures Next(ZE, k) == Bad
  {
  }

  lemma ExponentRefused(m: Core, c: char)
    requires !m.p.escaped && !m.p.comment && m.p.kind == IntegerType && m.p.state == ZE && (c == 'e' || c == 'E')
    ensures Feed(Running(m), c) == Error
  {
    ExponentClass(c);
    ZeroExponentRow(ClassOf(c).value);
    StoredThenActed(m, c, ClassOf(c).value, Bad);
  }

  /** A refused character, whatever follows it. */
  lemma RefusedThenRest(m: Core, c: char, rest: string)
    requires Feed(Running(m), c) == Error
    ensures FeedAll(Running(m), [c] + rest) == Error
  {
    assert ([c] + rest)[0] == c && ([c] + rest)[1..] == rest;
    Stopped(Error, rest);
  }

  lemma ExponentFails(m: Core, e: string)
    requires !m.p.escaped && !m.p.comment && m.p.kind == IntegerType && m.p.state == ZE
    requires e != "" && (e[0] == 'e' || e[0] == 'E')
    ensures FeedAll(Running(m), e) == Error
  {
    ExponentRefused(m, e[0]);
    RefusedThenRest(m, e[0], e[1..]);
    assert [e[0]] + e[1..] == e;
  }

  /** Of the numbers of RFC 8259, those with a whole part of zero, an exponent and no fraction are refused. */
  lemma ZeroExponentRefused(m: Core, f: FloatParts)
    requires Between(m) && (m.p.state == VA || m.p.state == AR) && m.depth >= 1 && f.IsJson() && !f.Valid()
    ensures FeedAll(Running(m), f.Text()) == Error
  {
    var m1 := Number(m, IntegerType, ZE, f.Whole());
    FeedWhole(m, f.neg, f.whole);
    ExponentFails(m1, f.exp);
    GoesThenFails(m, f.Whole(), m1, f.exp);
    NoFraction(f);
  }

  lemma NoFraction(f: FloatParts)
    requires f.frac == ""
    ensures f.Text() == f.Whole() + f.exp
  {
  }

  lemma GoesThenFails(m: Core, a: string, m1: Core, b: string)
    requires Goes(m, a, m1) && FeedAll(Running(m1), b) == Error
    ensures FeedAll(Running(m), a + b) == Error
  {
    GoesFeeds(m, a, m1);
    FeedConcat(Running(m), a, b);
  }

  lemma FloatTextPlain(f: FloatParts)
    requires f.Valid()
    ensures UpToWhite(f.Text()) == f.Text()
  {
    var text := f.Text();
    DigitsReadBack(f.whole);
    forall k | 0 <= k < |text| ensures !White(text[k]) {
      var a, b := |f.Whole()|, |f.Whole() + f.Fraction()|;
      if k < a {
        assert text[k] == f.Whole()[k];
      } else if k < b {
        assert text[k] == f.Fraction()[k - a];
      } else {
        assert text[k] == f.exp[k - b];
        assert k - b >= 2 ==> f.exp[k - b] == f.exp[2..][k - b - 2];
        assert k - b >= 1 ==> f.exp[k - b] == f.exp[1..][k - b - 1];
      }
    }
    PlainNumber(text);
  }

  lemma FeedWord(m: Core, c: char, t: Type, s: State, rest: string, ss: seq<State>, word: string)
    requires Between(m) && (m.p.state == VA || m.p.state == AR) && m.depth >= 1 && Starts(c, t, s)
    requires Moves(s, rest, ss) && rest != "" && ss[|ss| - 1] == OK && word == [c] + rest
    ensures Goes(m, word, m.(p := m.p.(kind := t, state := OK, buf := word)))
  {
    FeedToken(m, c, t, s, rest, ss);
  }

  lemma NullMoves()
    ensures Moves(N1, "ull", [N2, N3, OK])
  {
    assert Step(N1, 'u', N2);
    assert Step(N2, 'l', N3);
    assert Step(N3, 'l', OK);
  }

  lemma FeedNull(m: Core)
    requires Between(m) && (m.p.state == VA || m.p.state == AR) && m.depth >= 1
    ensures Goes(m, "null", m.(p := m.p.(kind := NullType, state := OK, buf := "null")))
  {
    NullMoves();
    FeedWord(m, 'n', NullType, N1, "ull", [N2, N3, OK], "null");
  }

  lemma TrueMoves()
    ensures Moves(T1, "rue", [T2, T3, OK])
  {
    TrueStart();
    TrueEnd();
  }

  lemma TrueStart()
    ensures Step(T1, 'r', T2) && Step(T2, 'u', T3)
  {
  }

  lemma TrueEnd()
    ensures Step(T3, 'e', OK)
  {
  }

  lemma FeedTrue(m: Core)
    requires Between(m) && (m.p.state == VA || m.p.state == AR) && m.depth >= 1
    ensures Goes(m, "true", m.(p := m.p.(kind := TrueType, state := OK, buf := "true")))
  {
    TrueMoves();
    FeedWord(m, 't', TrueType, T1, "rue", [T2, T3, OK], "true");
  }

  lemma FalseMoves()
    ensures Moves(F1, "al", [F2, F3])
  {
    assert Step(F1, 'a', F2);
    assert Step(F2, 'l', F3);
  }

  lemma FalseMovesOn()
    ensures Moves(F3, "se", [F4, OK])
  {
    assert Step(F3, 's', F4);
    assert Step(F4, 'e', OK);
  }

  lemma FeedFal(m: Core)
    requires Between(m) && (m.p.state == VA || m.p.state == AR) && m.depth >= 1
    ensures Goes(m, "fal", m.(p := m.p.(kind := FalseType, state := F3, buf := "fal")))
  {
    FalseMoves();
    FeedToken(m, 'f', FalseType, F1, "al", [F2, F3]);
    assert ['f'] + "al" == "fal";
  }

  lemma FeedSe(m: Core)
    requires !m.p.escaped && !m.p.comment && m.depth >= 1
    requires m.p.kind == FalseType && m.p.state == F3 && m.p.buf == "fal"
    ensures Goes(m, "se", m.(p := m.p.(state := OK, buf := "false")))
  {
    FalseMovesOn();
    Letters(m, "se", [F4, OK]);
    assert "fal" + "se" == "false";
  }

  lemma FeedFalse(m: Core)
    requires Between(m) && (m.p.state == VA || m.p.state == AR) && m.depth >= 1
    ensures Goes(m, "false", m.(p := m.p.(kind := FalseType, state := OK, buf := "false")))
  {
    var m1 := m.(p := m.p.(kind := FalseType, state := F3, buf := "fal"));
    FeedFal(m);
    FeedSe(m1);
    GoesTrans(m, "fal", m1, "se", m.(p := m.p.(kind := FalseType, state := OK, buf := "false")));
    assert "fal" + "se" == "false";
  }
}

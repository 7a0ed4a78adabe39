/** Parsing undoes printing. */
module JsonRoundTrip {
  import opened Helpers
  import opened JsonTable
  import opened JsonValue
  import opened JsonParser
  import opened JsonPrinter
  import opened JsonStrings
  import opened JsonTokens

  // ---- separators

  /** Ready for a value, inside an array or after a key. */
  predicate Ready(m: Core) {
    && Between(m) && (m.p.state == VA || m.p.state == AR) && m.depth >= 1
    && (TopMode(m.p) == Some(Mode.InArray) || TopMode(m.p) == Some(Mode.InObject))
  }

  function Settled(m: Core, s: State, b: Builder): Core {
    Core(m.p.(kind := NoType, state := s, buf := ""), m.depth, b)
  }

  /** The character is stored and popped again: actions see the buffer as it was. */
  lemma PoppedAgain(p: Parser, c: char)
    ensures PopChar(p.(buf := p.buf + [c])) == Go(p)
  {
    assert (p.buf + [c])[..|p.buf|] == p.buf;
  }

  lemma CommaRow(s: State)
    requires EndsValue(s)
    ensures ClassOf(',') == Some(COMMA) && Next(s, COMMA) == Comma
  {
  }

  lemma CommaInArray(m: Core, b: Builder)
    requires AtEnd(m) && Settles(m, b) && TopMode(m.p) == Some(Mode.InArray)
    ensures Goes(m, ",", Settled(m, VA, b))
  {
    PoppedAgain(m.p, ',');
    FlushSettles(m, b);
    CommaRow(m.p.state);
    StoredThenActed(m, ',', COMMA, Comma);
    assert OnComma(Plus(m, ',')) == Go(Settled(m, VA, b));
    GoesOne(m, ',', Settled(m, VA, b));
  }

  function WithMode(m: Core, mode: Mode): Core
    requires m.p.stack != []
  {
    m.(p := m.p.(stack := m.p.stack[..|m.p.stack| - 1] + [mode]))
  }

  lemma CommaInObject(m: Core, b: Builder)
    requires AtEnd(m) && Settles(m, b) && TopMode(m.p) == Some(Mode.InObject)
    ensures Goes(m, ",", WithMode(Settled(m, KE, b), AtKey))
  {
    PoppedAgain(m.p, ',');
    FlushSettles(m, b);
    CommaRow(m.p.state);
    StoredThenActed(m, ',', COMMA, Comma);
    assert OnComma(Plus(m, ',')) == Go(WithMode(Settled(m, KE, b), AtKey));
    GoesOne(m, ',', WithMode(Settled(m, KE, b), AtKey));
  }

  lemma ColonRow()
    ensures ClassOf(':') == Some(COLON) && Next(CO, COLON) == Colon
  {
  }

  lemma ColonStep(m: Core)
    requires Between(m) && m.p.state == CO && TopMode(m.p) == Some(AtKey)
    ensures Goes(m, ":", WithMode(m.(p := m.p.(state := VA)), Mode.InObject))
  {
    PoppedAgain(m.p, ':');
    ColonRow();
    StoredThenActed(m, ':', COLON, Colon);
    assert OnColon(Plus(m, ':')) == Go(WithMode(m.(p := m.p.(state := VA)), Mode.InObject));
    GoesOne(m, ':', WithMode(m.(p := m.p.(state := VA)), Mode.InObject));
  }

  // ---- opening and closing containers

  predicate Opens(m: Core) {
    Between(m) && (m.p.state == GO || m.p.state == VA || m.p.state == AR)
  }

  function Entered(m: Core, v: Value): Core {
    Core(m.p.(state := if v.Array? then AR else OB, stack := m.p.stack + [if v.Array? then Mode.InArray else AtKey]),
         m.depth + 1, m.b.Push(v))
  }

  lemma OpenRows(s: State)
    requires s == GO || s == VA || s == AR
    ensures ClassOf('[') == Some(LSQRB) && Next(s, LSQRB) == ArrayBegin
    ensures ClassOf('{') == Some(LCURB) && Next(s, LCURB) == ObjectBegin
  {
  }

  lemma BeginEnters(m: Core, c: char, v: Value)
    requires m.p.kind == NoType && (v == Array([]) || v == Object([]))
    ensures OnBegin(Plus(m, c), v, if v.Array? then Mode.InArray else AtKey, if v.Array? then AR else OB)
         == Go(Entered(m, v))
  {
    PoppedAgain(m.p, c);
  }

  lemma OpenArray(m: Core)
    requires Opens(m) && m.depth >= 0
    ensures Goes(m, "[", Entered(m, Array([])))
  {
    OpenRows(m.p.state);
    StoredThenActed(m, '[', LSQRB, ArrayBegin);
    BeginEnters(m, '[', Array([]));
    GoesOne(m, '[', Entered(m, Array([])));
  }

  lemma OpenObject(m: Core)
    requires Opens(m) && m.depth >= 0
    ensures Goes(m, "{", Entered(m, Object([])))
  {
    OpenRows(m.p.state);
    StoredThenActed(m, '{', LCURB, ObjectBegin);
    BeginEnters(m, '{', Object([]));
    GoesOne(m, '{', Entered(m, Object([])));
  }

  function Closed(m: Core, b: Builder): Core
    requires m.p.stack != []
  {
    Core(m.p.(kind := NoType, state := OK, buf := "", stack := m.p.stack[..|m.p.stack| - 1]), m.depth - 1, b)
  }

  lemma EndStep(m: Core, c: char, mode: Mode, inner: Builder, b: Builder)
    requires Settles(m, inner) && inner.stack != [] && CloseContainer(inner, mode.InArray?) == Some(b)
    requires TopMode(m.p) == Some(mode)
    ensures OnEnd(Plus(m, c), mode) == Go(Closed(m, b))
  {
    PoppedAgain(m.p, c);
    FlushSettles(m, inner);
  }

  lemma CloseArray(m: Core, b0: Builder, done: seq<Value>, b: Builder)
    requires InElems(m, b0, done) && TopMode(m.p) == Some(Mode.InArray) && AddValue(b0, Array(done)) == Some(b)
    ensures ParserChar(m, ']') == Go(Closed(m, b))
  {
    CloseOpened(b0, Array(done));
    EndStep(m, ']', Mode.InArray, b0.Push(Array(done)), b);
    BracketCloses(m, b);
  }

  lemma BracketCloses(m: Core, b: Builder)
    requires !m.p.escaped && !m.p.comment && m.p.stack != []
    requires m.p.state == AR || EndsValue(m.p.state)
    requires OnEnd(Plus(m, ']'), Mode.InArray) == Go(Closed(m, b))
    ensures ParserChar(m, ']') == Go(Closed(m, b))
  {
    BracketRow(m.p.state);
    StoredThenActed(m, ']', RSQRB, ArrayEnd);
  }

  lemma BracketRow(s: State)
    requires s == AR || EndsValue(s)
    ensures ClassOf(']') == Some(RSQRB) && Next(s, RSQRB) == ArrayEnd
  {
  }

  lemma CloseEmptyObject(m: Core, b0: Builder, b: Builder)
    requires Between(m) && m.p.state == OB && m.b == b0.Push(Object([])) && AddValue(b0, Object([])) == Some(b)
    requires TopMode(m.p) == Some(AtKey)
    ensures ParserChar(m, '}') == Go(Closed(m, b))
  {
    CloseOpened(b0, Object([]));
    EmptyCloses(m, b0, b);
    EmptyRow();
    StoredThenActed(m, '}', RCURB, EmptyObject);
  }

  lemma EmptyRow()
    ensures ClassOf('}') == Some(RCURB) && Next(OB, RCURB) == EmptyObject
  {
  }

  lemma EmptyCloses(m: Core, b0: Builder, b: Builder)
    requires Between(m) && m.b == b0.Push(Object([])) && CloseContainer(m.b, false) == Some(b)
         && TopMode(m.p) == Some(AtKey)
    ensures OnEmptyObject(Plus(m, '}')) == Go(Closed(m, b))
  {
  }

  lemma CloseObject(m: Core, b0: Builder, done: seq<Member>, b: Builder)
    requires AtEnd(m) && Settles(m, b0.Push(Object(done))) && AddValue(b0, Object(done)) == Some(b)
    requires TopMode(m.p) == Some(Mode.InObject)
    ensures ParserChar(m, '}') == Go(Closed(m, b))
  {
    CloseOpened(b0, Object(done));
    EndStep(m, '}', Mode.InObject, b0.Push(Object(done)), b);
    BraceCloses(m, b);
  }

  lemma BraceCloses(m: Core, b: Builder)
    requires !m.p.escaped && !m.p.comment && m.p.stack != []
    requires EndsValue(m.p.state)
    requires OnEnd(Plus(m, '}'), Mode.InObject) == Go(Closed(m, b))
    ensures ParserChar(m, '}') == Go(Closed(m, b))
  {
    BraceRow(m.p.state);
    StoredThenActed(m, '}', RCURB, ObjectEnd);
  }

  lemma BraceRow(s: State)
    requires EndsValue(s)
    ensures ClassOf('}') == Some(RCURB) && Next(s, RCURB) == ObjectEnd
  {
  }

  // ---- inside a container

  /** Between elements of an array: `done` are in the tree, the last perhaps still pending. */
  predicate InElems(m: Core, b0: Builder, done: seq<Value>) {
    if m.p.state == AR then Between(m) && m.b == b0.Push(Array(done)) && done == []
    else AtEnd(m) && Settles(m, b0.Push(Array(done)))
  }

  predicate InMembers(m: Core, b0: Builder, done: seq<Member>) {
    if m.p.state == OB then Between(m) && m.b == b0.Push(Object(done)) && done == []
    else AtEnd(m) && Settles(m, b0.Push(Object(done)))
  }

  function MemberMode(m: Core): Mode {
    if m.p.state == OB then AtKey else Mode.InObject
  }

  /** The separator and line break before an element. */
  lemma BeforeElem(m: Core, b0: Builder, done: seq<Value>, pretty: bool, level: nat) returns (m': Core)
    requires InElems(m, b0, done) && TopMode(m.p) == Some(Mode.InArray) && m.depth >= 1
    ensures Goes(m, Separator(m.p.state == AR) + Break(pretty, level), m')
    ensures Ready(m') && m'.b == b0.Push(Array(done)) && m'.p.stack == m.p.stack && m'.depth == m.depth
  {
    BreakIsBlank(pretty, level);
    if m.p.state == AR {
      m' := m;
      BlankBetween(m, Break(pretty, level));
      assert "" + Break(pretty, level) == Break(pretty, level);
    } else {
      m' := Settled(m, VA, b0.Push(Array(done)));
      CommaInArray(m, b0.Push(Array(done)));
      SeparatorBlank(m, m', pretty, level);
    }
  }

  lemma SeparatorBlank(m: Core, m1: Core, pretty: bool, level: nat)
    requires Goes(m, ",", m1) && Between(m1) && Skips(m1.p.state)
    ensures Goes(m, ", " + Break(pretty, level), m1)
  {
    BreakIsBlank(pretty, level);
    BlankBetween(m1, " " + Break(pretty, level));
    GoesTrans(m, ",", m1, " " + Break(pretty, level), m1);
    assert "," + (" " + Break(pretty, level)) == ", " + Break(pretty, level);
  }

  /** The separator, line break, key and colon before a member's value. */
  lemma BeforeMember(m: Core, b0: Builder, done: seq<Member>, key: string, pretty: bool, level: nat) returns (m': Core)
    requires InMembers(m, b0, done) && m.depth >= 1 && NulFree(key) && TopMode(m.p) == Some(MemberMode(m))
    ensures Goes(m, Separator(m.p.state == OB) + Break(pretty, level) + Quoted(key) + ": ", m')
    ensures Ready(m') && m'.p.stack == m.p.stack[..|m.p.stack| - 1] + [Mode.InObject] && m'.depth == m.depth
    ensures m'.b == b0.Push(Object(done)).(keys := b0.keys + [key])
  {
    var sep := Separator(m.p.state == OB) + Break(pretty, level);
    var m1 := BeforeKey(m, b0, done, pretty, level);
    m' := KeyAndColon(m1, key);
    GoesTrans(m, sep, m1, Quoted(key) + ": ", m');
    assert sep + (Quoted(key) + ": ") == sep + Quoted(key) + ": ";
  }

  lemma KeyAndColon(m: Core, key: string) returns (m': Core)
    requires Between(m) && (m.p.state == KE || m.p.state == OB) && m.depth >= 1 && NulFree(key)
    requires TopMode(m.p) == Some(AtKey) && m.b.InObject()
    ensures Goes(m, Quoted(key) + ": ", m')
    ensures Ready(m') && m'.p.stack == m.p.stack[..|m.p.stack| - 1] + [Mode.InObject] && m'.depth == m.depth
    ensures m'.b == m.b.(keys := m.b.keys + [key])
  {
    var m1 := Core(m.p.(state := CO), m.depth, m.b.(keys := m.b.keys + [key]));
    FeedKey(m, key);
    m' := WithMode(m1.(p := m1.p.(state := VA)), Mode.InObject);
    ColonAndSpace(m1, m');
    GoesTrans(m, Quoted(key), m1, ": ", m');
  }

  lemma ColonAndSpace(m: Core, m': Core)
    requires Between(m) && m.p.state == CO && TopMode(m.p) == Some(AtKey)
    requires m' == WithMode(m.(p := m.p.(state := VA)), Mode.InObject)
    ensures Goes(m, ": ", m')
  {
    ColonStep(m);
    BlankBetween(m', " ");
    GoesTrans(m, ":", m', " ", m');
    assert ":" + " " == ": ";
  }

  lemma BeforeKey(m: Core, b0: Builder, done: seq<Member>, pretty: bool, level: nat) returns (m': Core)
    requires InMembers(m, b0, done) && TopMode(m.p) == Some(MemberMode(m))
    ensures Goes(m, Separator(m.p.state == OB) + Break(pretty, level), m')
    ensures Between(m') && (m'.p.state == KE || m'.p.state == OB) && m'.depth == m.depth
         && m'.b == b0.Push(Object(done))
    ensures m'.p.stack == m.p.stack[..|m.p.stack| - 1] + [AtKey]
  {
    BreakIsBlank(pretty, level);
    if m.p.state == OB {
      m' := m;
      BlankBetween(m, Break(pretty, level));
      assert "" + Break(pretty, level) == Break(pretty, level);
    } else {
      m' := WithMode(Settled(m, KE, b0.Push(Object(done))), AtKey);
      assert Goes(m, ",", m') by {
        CommaInObject(m, b0.Push(Object(done)));
      }
      SeparatorBlank(m, m', pretty, level);
    }
  }

  // ---- values

  /** The parser at the end of a value it was Ready for. */
  predicate Consumed(m: Core, m': Core, b: Builder) {
    AtEnd(m') && Settles(m', b) && m'.p.stack == m.p.stack && m'.depth == m.depth
  }

  lemma FeedScalar(m: Core, v: Value, pretty: bool, level: nat, b: Builder) returns (m': Core)
    requires Ready(m) && Printable(v) && level > 0 && !v.Array? && !v.Object? && AddValue(m.b, v) == Some(b)
    ensures Goes(m, Print(v, pretty, level), m') && Consumed(m, m', b)
  {
    match v
    case Number(n) => m' := ScalarNumber(m, n, b);
    case Float(literal) => m' := ScalarFloat(m, literal, b);
    case Str(s) =>
      m' := Core(m.p.(state := OK), m.depth, b);
      FeedString(m, s, b);
    case _ => m' := ScalarWord(m, v, pretty, level, b);
  }

  lemma ScalarNumber(m: Core, n: int, b: Builder) returns (m': Core)
    requires Ready(m) && AddValue(m.b, Number(n)) == Some(b)
    ensures Goes(m, Decimal(n), m') && Consumed(m, m', b)
  {
    var s := FeedNumber(m, n);
    m' := m.(p := m.p.(kind := IntegerType, state := s, buf := Decimal(n)));
    DecimalReadsBack(n);
  }

  lemma ScalarFloat(m: Core, literal: string, b: Builder) returns (m': Core)
    requires Ready(m) && FloatText(literal) && AddValue(m.b, Value.Float(literal)) == Some(b)
    ensures Goes(m, literal, m') && Consumed(m, m', b)
  {
    var f: FloatParts :| f.Valid() && f.Text() == literal;
    var s := FeedFloat(m, f);
    FloatTextPlain(f);
    m' := JsonTokens.Number(m, FloatType, s, literal);
    FloatIsPending(m, s, literal, b);
  }

  lemma FloatIsPending(m: Core, s: State, literal: string, b: Builder)
    requires Ready(m) && (s == FR || s == E3) && UpToWhite(literal) == literal
    requires AddValue(m.b, Value.Float(literal)) == Some(b)
    ensures Consumed(m, JsonTokens.Number(m, FloatType, s, literal), b)
  {
  }

  lemma ScalarWord(m: Core, v: Value, pretty: bool, level: nat, b: Builder) returns (m': Core)
    requires Ready(m) && level > 0 && (v.Null? || v.Bool?) && AddValue(m.b, v) == Some(b)
    ensures Goes(m, Print(v, pretty, level), m') && Consumed(m, m', b)
  {
    if v.Null? {
      m' := m.(p := m.p.(kind := NullType, state := OK, buf := "null"));
      FeedNull(m);
    } else if v.b {
      m' := m.(p := m.p.(kind := TrueType, state := OK, buf := "true"));
      FeedTrue(m);
    } else {
      m' := m.(p := m.p.(kind := FalseType, state := OK, buf := "false"));
      FeedFalse(m);
    }
  }

  lemma {:induction false} FeedValue(m: Core, v: Value, pretty: bool, level: nat, b: Builder) returns (m': Core)
    requires Ready(m) && Printable(v) && level > 0 && AddValue(m.b, v) == Some(b)
    ensures Goes(m, Print(v, pretty, level), m') && Consumed(m, m', b)
    decreases v, 2
  {
    if v.Array? || v.Object? {
      var text, c, m1;
      text, c, m1, m' := FeedContainer(m, v, pretty, level, b);
      GoesOne(m1, c, m');
      GoesTrans(m, text, m1, [c], m');
    } else {
      m' := FeedScalar(m, v, pretty, level, b);
    }
  }

  /** A container up to its last character, and what that character does. */
  lemma {:induction false} FeedContainer(m: Core, v: Value, pretty: bool, level: nat, b: Builder)
      returns (text: string, c: char, m1: Core, m3: Core)
    requires Opens(m) && m.depth >= 0 && Printable(v) && level > 0 && (v.Array? || v.Object?)
    requires AddValue(m.b, v) == Some(b)
    ensures Print(v, pretty, level) == text + [c] && Goes(m, text, m1)
    ensures ParserChar(m1, c) == Go(m3) && Outside(m, m3, b)
    decreases v, 1
  {
    if v.Array? {
      c := ']';
      text, m1, m3 := FeedArray(m, v.elems, v, pretty, level, b);
    } else {
      c := '}';
      text, m1, m3 := FeedObject(m, v.members, v, pretty, level, b);
    }
  }

  lemma {:induction false} FeedArray(m: Core, es: seq<Value>, v: Value, pretty: bool, level: nat, b: Builder)
      returns (text: string, m1: Core, m3: Core)
    requires Opens(m) && m.depth >= 0 && v == Array(es) && Printable(v) && level > 0 && AddValue(m.b, v) == Some(b)
    ensures text == "[" + PrintElems(es, true, pretty, level) + Break(pretty, level - 1) && Goes(m, text, m1)
    ensures ParserChar(m1, ']') == Go(m3) && Outside(m, m3, b)
    decreases v, 0
  {
    var br, e := Break(pretty, level - 1), Entered(m, Array([]));
    BreakIsBlank(pretty, level - 1);
    OpenArray(m);
    var m2 := FeedElems(e, es, m.b, [], pretty, level);
    assert [] + es == es;
    text, m1, m3 := FinishArray(m, e, PrintElems(es, true, pretty, level), m2, es, br, b);
  }

  lemma {:induction false} FeedObject(m: Core, ms: seq<Member>, v: Value, pretty: bool, level: nat, b: Builder)
      returns (text: string, m1: Core, m3: Core)
    requires Opens(m) && m.depth >= 0 && v == Object(ms) && Printable(v) && level > 0 && AddValue(m.b, v) == Some(b)
    ensures text == "{" + PrintMembers(ms, true, pretty, level) + Break(pretty, level - 1) && Goes(m, text, m1)
    ensures ParserChar(m1, '}') == Go(m3) && Outside(m, m3, b)
    decreases v, 0
  {
    var br, e := Break(pretty, level - 1), Entered(m, Object([]));
    BreakIsBlank(pretty, level - 1);
    OpenObject(m);
    assert [] + ms == ms;
    var m2 := FeedMembers(e, ms, m.b, [], pretty, level);
    text, m1, m3 := FinishObject(m, e, PrintMembers(ms, true, pretty, level), m2, ms, br, b);
  }

  /** Just after a container: nothing pending, the value handed to the tree around it. */
  predicate Outside(m: Core, m3: Core, b: Builder) {
    Between(m3) && m3.p.state == OK && m3.p.stack == m.p.stack && m3.depth == m.depth && m3.b == b
  }

  lemma FinishArray(m: Core, e: Core, body: string, m2: Core, done: seq<Value>, br: string, b: Builder)
      returns (text: string, m1: Core, m3: Core)
    requires e == Entered(m, Array([])) && m.depth >= 0 && Goes(m, "[", e) && Goes(e, body, m2)
    requires InElems(m2, m.b, done) && m2.p.stack == e.p.stack && m2.depth == e.depth
    requires Blank(br) && AddValue(m.b, Array(done)) == Some(b)
    ensures text == "[" + body + br && Goes(m, text, m1)
    ensures ParserChar(m1, ']') == Go(m3) && Outside(m, m3, b)
  {
    m1 := BlankElems(m2, m.b, done, br);
    text := Chain(m, "[", e, body, m2, br, m1);
    CloseArray(m1, m.b, done, b);
    m3 := Closed(m1, b);
    BackOutside(m, m1, b);
  }

  lemma FinishObject(m: Core, e: Core, body: string, m2: Core, done: seq<Member>, br: string, b: Builder)
      returns (text: string, m1: Core, m3: Core)
    requires e == Entered(m, Object([])) && m.depth >= 0 && Goes(m, "{", e) && Goes(e, body, m2)
    requires InMembers(m2, m.b, done) && m2.p.stack == m.p.stack + [MemberMode(m2)] && m2.depth == e.depth
    requires Blank(br) && AddValue(m.b, Object(done)) == Some(b)
    ensures text == "{" + body + br && Goes(m, text, m1)
    ensures ParserChar(m1, '}') == Go(m3) && Outside(m, m3, b)
  {
    m1 := BlankMembers(m2, m.b, done, br);
    text := Chain(m, "{", e, body, m2, br, m1);
    if m1.p.state == OB {
      CloseEmptyObject(m1, m.b, b);
    } else {
      CloseObject(m1, m.b, done, b);
    }
    m3 := Closed(m1, b);
    BackOutside(m, m1, b);
  }

  lemma BackOutside(m: Core, m1: Core, b: Builder)
    requires Quiet(m1) && m1.depth == m.depth + 1
    requires |m1.p.stack| == |m.p.stack| + 1 && m1.p.stack[..|m.p.stack|] == m.p.stack
    ensures Outside(m, Closed(m1, b), b)
  {
  }

  lemma Chain(m: Core, a: string, m1: Core, b: string, m2: Core, c: string, m3: Core) returns (text: string)
    requires Goes(m, a, m1) && Goes(m1, b, m2) && Goes(m2, c, m3)
    ensures text == a + b + c && Goes(m, text, m3)
  {
    text := a + b + c;
    GoesTrans(m, a, m1, b, m2);
    GoesTrans(m, a + b, m2, c, m3);
  }

  lemma BlankElems(m: Core, b0: Builder, done: seq<Value>, br: string) returns (m': Core)
    requires InElems(m, b0, done) && Blank(br) && m.depth >= 1
    ensures Goes(m, br, m') && InElems(m', b0, done) && m'.p.stack == m.p.stack && m'.depth == m.depth
  {
    if m.p.state == AR {
      m' := m;
      BlankBetween(m, br);
    } else {
      m' := BlankAfter(m, br);
    }
  }

  lemma BlankMembers(m: Core, b0: Builder, done: seq<Member>, br: string) returns (m': Core)
    requires InMembers(m, b0, done) && Blank(br) && m.depth >= 1
    ensures Goes(m, br, m') && InMembers(m', b0, done) && m'.p.stack == m.p.stack && m'.depth == m.depth
    ensures MemberMode(m') == MemberMode(m)
  {
    if m.p.state == OB {
      m' := m;
      BlankBetween(m, br);
    } else {
      m' := BlankAfter(m, br);
    }
  }

  lemma {:induction false} FeedElems(m: Core, es: seq<Value>, b0: Builder, done: seq<Value>, pretty: bool, level: nat)
      returns (m': Core)
    requires InElems(m, b0, done) && TopMode(m.p) == Some(Mode.InArray) && m.depth >= 1 && level > 0
    requires forall i | 0 <= i < |es| :: Printable(es[i])
    ensures Goes(m, PrintElems(es, m.p.state == AR, pretty, level), m')
    ensures InElems(m', b0, done + es) && m'.p.stack == m.p.stack && m'.depth == m.depth
    decreases es
  {
    if es == [] {
      m' := m;
      GoesNone(m);
      assert done + es == done;
    } else {
      var first, one := m.p.state == AR, OneElem(es[0], m.p.state == AR, pretty, level);
      var m1 := FeedElem(m, es[0], b0, done, pretty, level);
      assert done + [es[0]] + es[1..] == done + es;
      m' := FeedElems(m1, es[1..], b0, done + [es[0]], pretty, level);
      assert Goes(m, PrintElems(es, first, pretty, level), m') by {
        ElemsText(es, first, pretty, level);
        GoesTrans(m, one, m1, PrintElems(es[1..], false, pretty, level), m');
      }
    }
  }

  /** The text of one element, with what separates it from the one before. */
  function OneElem(x: Value, first: bool, pretty: bool, level: nat): string
    requires level > 0
  {
    Separator(first) + Break(pretty, level) + Print(x, pretty, level + 1)
  }

  lemma ElemsText(es: seq<Value>, first: bool, pretty: bool, level: nat)
    requires es != [] && level > 0
    ensures PrintElems(es, first, pretty, level)
         == OneElem(es[0], first, pretty, level) + PrintElems(es[1..], false, pretty, level)
  {
  }

  /** The next element and its separator. */
  lemma {:induction false} FeedElem(m: Core, x: Value, b0: Builder, done: seq<Value>, pretty: bool,
      level: nat) returns (m': Core)
    requires InElems(m, b0, done) && TopMode(m.p) == Some(Mode.InArray) && m.depth >= 1 && level > 0 && Printable(x)
    ensures Goes(m, OneElem(x, m.p.state == AR, pretty, level), m')
    ensures m'.p.state != AR && InElems(m', b0, done + [x]) && m'.p.stack == m.p.stack && m'.depth == m.depth
    decreases x, 3
  {
    var head := Separator(m.p.state == AR) + Break(pretty, level);
    var m1 := BeforeElem(m, b0, done, pretty, level);
    AddToArray(b0, done, x);
    m' := FeedValue(m1, x, pretty, level + 1, b0.Push(Array(done + [x])));
    GoesTrans(m, head, m1, Print(x, pretty, level + 1), m');
  }

  /** The text of one member, with what separates it from the one before. */
  function OneMember(x: Member, first: bool, pretty: bool, level: nat): string
    requires level > 0
  {
    Separator(first) + Break(pretty, level) + Quoted(x.key) + ": " + Print(x.value, pretty, level + 1)
  }

  lemma TopOfPush(p: Parser, front: seq<Mode>, mode: Mode)
    requires p.stack == front + [mode]
    ensures TopMode(p) == Some(mode) && p.stack[..|p.stack| - 1] == front
  {
  }

  lemma MembersText(ms: seq<Member>, first: bool, pretty: bool, level: nat)
    requires ms != [] && level > 0
    ensures PrintMembers(ms, first, pretty, level)
         == OneMember(ms[0], first, pretty, level) + PrintMembers(ms[1..], false, pretty, level)
  {
  }

  lemma {:induction false} FeedMembers(m: Core, ms: seq<Member>, b0: Builder, done: seq<Member>, pretty: bool,
      level: nat)
      returns (m': Core)
    requires InMembers(m, b0, done) && TopMode(m.p) == Some(MemberMode(m)) && m.depth >= 1 && level > 0
    requires DistinctKeys(done + ms) && forall i | 0 <= i < |ms| :: NulFree(ms[i].key) && Printable(ms[i].value)
    ensures Goes(m, PrintMembers(ms, m.p.state == OB, pretty, level), m')
    ensures InMembers(m', b0, done + ms) && m'.depth == m.depth
    ensures m'.p.stack == m.p.stack[..|m.p.stack| - 1] + [MemberMode(m')]
    decreases ms, 1
  {
    if ms == [] {
      m' := m;
      GoesNone(m);
      assert done + ms == done;
    } else {
      var first, one := m.p.state == OB, OneMember(ms[0], m.p.state == OB, pretty, level);
      var m1 := FeedMember(m, ms, b0, done, pretty, level);
      TopOfPush(m1.p, m.p.stack[..|m.p.stack| - 1], Mode.InObject);
      RestOfMembers(ms, done);
      m' := FeedMembers(m1, ms[1..], b0, done + [ms[0]], pretty, level);
      assert Goes(m, PrintMembers(ms, first, pretty, level), m') by {
        MembersText(ms, first, pretty, level);
        GoesTrans(m, one, m1, PrintMembers(ms[1..], false, pretty, level), m');
      }
    }
  }

  lemma RestOfMembers(ms: seq<Member>, done: seq<Member>)
    requires ms != [] && forall i | 0 <= i < |ms| :: NulFree(ms[i].key) && Printable(ms[i].value)
    ensures done + [ms[0]] + ms[1..] == done + ms
    ensures forall i | 0 <= i < |ms[1..]| :: NulFree(ms[1..][i].key) && Printable(ms[1..][i].value)
  {
  }

  /** The next member, its separator and its key included. */
  lemma {:induction false} FeedMember(m: Core, ms: seq<Member>, b0: Builder, done: seq<Member>, pretty: bool,
      level: nat)
      returns (m': Core)
    requires InMembers(m, b0, done) && TopMode(m.p) == Some(MemberMode(m)) && m.depth >= 1 && level > 0
    requires ms != [] && DistinctKeys(done + ms) && NulFree(ms[0].key) && Printable(ms[0].value)
    ensures Goes(m, OneMember(ms[0], m.p.state == OB, pretty, level), m')
    ensures m'.p.state != OB && InMembers(m', b0, done + [ms[0]]) && m'.depth == m.depth
    ensures m'.p.stack == m.p.stack[..|m.p.stack| - 1] + [Mode.InObject]
    decreases ms, 0
  {
    var k, x := ms[0].key, ms[0].value;
    var head := Separator(m.p.state == OB) + Break(pretty, level) + Quoted(k) + ": ";
    var m1 := BeforeMember(m, b0, done, k, pretty, level);
    FreshKey(done, ms);
    AddToObject(b0, done, k, x);
    m' := FeedValue(m1, x, pretty, level + 1, b0.Push(Object(done + [Member(k, x)])));
    GoesTrans(m, head, m1, Print(x, pretty, level + 1), m');
  }

  lemma FreshKey(done: seq<Member>, ms: seq<Member>)
    requires DistinctKeys(done + ms) && ms != []
    ensures forall i | 0 <= i < |done| :: done[i].key != ms[0].key
  {
    forall i | 0 <= i < |done|
      ensures done[i].key != ms[0].key
    {
      assert (done + ms)[i] == done[i] && (done + ms)[|done|] == ms[0];
    }
  }

  // ---- whole documents

  lemma PrefixRuns(s: Status, text: string, k: nat)
    requires k <= |text| && FeedAll(s, text).Running?
    ensures FeedAll(s, text[..k]).Running?
  {
    assert text == text[..k] + text[k..];
    FeedConcat(s, text[..k], text[k..]);
    if !FeedAll(s, text[..k]).Running? {
      Stopped(FeedAll(s, text[..k]), text[k..]);
    }
  }

  /** A document completed by its last character is running until then. */
  lemma DoneAtLast(m: Core, text: string, m1: Core, c: char, m2: Core)
    requires Goes(m, text, m1) && ParserChar(m1, c) == Go(m2) && Complete(m2)
    ensures FeedAll(Running(m), text + [c]) == Done(m2.(p := m2.p.(stack := m2.p.stack[..|m2.p.stack| - 1])))
    ensures forall k | 0 <= k < |text + [c]| :: FeedAll(Running(m), (text + [c])[..k]).Running?
  {
    GoesFeeds(m, text, m1);
    FeedConcat(Running(m), text, [c]);
    FeedOne(Running(m1), c);
    forall k | 0 <= k < |text + [c]|
      ensures FeedAll(Running(m), (text + [c])[..k]).Running?
    {
      assert (text + [c])[..k] == text[..k];
      PrefixRuns(Running(m), text, k);
    }
  }

  /**
   * The printed text of every tree rooted at a container parses back to that tree: the parser
   * is done exactly at the last character, with no assertion failed and nothing left over.
   */
  lemma ParseUndoesPrint(v: Value, pretty: bool)
    requires Printable(v) && (v.Array? || v.Object?)
    ensures var text := ToJson(v, pretty);
            && Parse(text).Done? && Parse(text).m.b == Builder([v], []) && Parse(text).m.p.stack == []
              && Parse(text).m.depth == 0
            && (forall k | 0 <= k < |text| :: Parse(text[..k]).Running?)
  {
    var m0 := Initial();
    assert [] + [v] == [v];
    var text, c, m1, m2 := FeedContainer(m0, v, pretty, 1, Builder([v], []));
    assert ToJson(v, pretty) == text + [c];
    assert Complete(m2) && m2.p.stack[..|m2.p.stack| - 1] == [];
    DoneAtLast(m0, text, m1, c, m2);
  }

  lemma ReadBack(v: Value, pretty: bool)
    requires Printable(v) && (v.Array? || v.Object?)
    ensures Tree(Parse(ToJson(v, pretty))) == Some(v)
  {
    ParseUndoesPrint(v, pretty);
  }

  /** Different trees never print the same. */
  lemma PrintIsInjective(v: Value, w: Value, pv: bool, pw: bool)
    requires Printable(v) && (v.Array? || v.Object?) && Printable(w) && (w.Array? || w.Object?)
    requires ToJson(v, pv) == ToJson(w, pw)
    ensures v == w
  {
    ParseUndoesPrint(v, pv);
    ParseUndoesPrint(w, pw);
  }
}

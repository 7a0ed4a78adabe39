/** No text, well formed or not, makes the parser fail an assertion or touch an empty stack. */
module JsonSafety {
  import opened Helpers
  import opened JsonTable
  import opened JsonValue
  import opened JsonParser

  // ---- the invariant

  /** Between tokens, where nothing is pending. */
  predicate Idle(s: State) {
    s.GO? || s.OB? || s.KE? || s.CO? || s.VA? || s.AR?
  }

  /** The pending type goes with the state. */
  predicate KindFits(p: Parser) {
    && (p.kind == StringType <==> InStringState(p.state))
    && (Idle(p.state) || InComment(p.state) ==> p.kind == NoType)
    && (InInteger(p.state) ==> p.kind == IntegerType)
    && (InFloat(p.state) ==> p.kind == FloatType)
    && (InTrue(p.state) ==> p.kind == TrueType)
    && (InFalse(p.state) ==> p.kind == FalseType)
    && (InNull(p.state) ==> p.kind == NullType)
    && (p.kind == NoType ==> p.buf == "")
  }

  predicate HexTail(buf: string, n: nat) {
    |buf| >= n + 2 && forall i | |buf| - n <= i < |buf| :: HexValue(buf[i]) < 16
  }

  predicate FlagsFit(p: Parser) {
    && p.escaped == (p.state == ES)
    && p.comment == InComment(p.state)
    && (p.hi != 0 ==> (p.state.D1? || p.state.D2? || p.state.U1? || p.state.U2? || p.state.U3? || p.state.U4?))
  }

  /** The buffer holds what the escape states will take out of it. */
  predicate BufferFits(p: Parser) {
    && (p.state == ES || p.state == D2 ==> p.buf != "")
    && (p.state == U1 ==> HexTail(p.buf, 0))
    && (p.state == U2 ==> HexTail(p.buf, 1))
    && (p.state == U3 ==> HexTail(p.buf, 2))
    && (p.state == U4 ==> HexTail(p.buf, 3))
  }

  /** The state that counts: the one to return to while in a comment. */
  function Effective(p: Parser): State {
    if InComment(p.state) then p.beforeComment else p.state
  }

  /** Which modes each state can be in. */
  predicate ModeFits(s: State, top: Mode) {
    if s == GO then top == AtDone
    else if s == AR then top == Mode.InArray
    else if s == OB || s == KE || s == CO then top == AtKey
    else if InStringState(s) then top != AtDone
    else top == Mode.InArray || top == Mode.InObject
  }

  predicate ParserOk(p: Parser) {
    && KindFits(p) && FlagsFit(p) && BufferFits(p)
    && p.stack != [] && ModeFits(Effective(p), p.stack[|p.stack| - 1])
    && (InComment(p.state) ==> Idle(p.beforeComment) || p.beforeComment == OK)
  }

  /** The mode stack mirrors the open containers; only the innermost can await a key. */
  predicate Mirrors(stack: seq<Mode>, open: seq<Value>) {
    && |stack| == |open| + 1 && stack[0] == AtDone
    && (forall i | 0 <= i < |open| :: open[i].Array? || open[i].Object?)
    && (forall i | 0 <= i < |open| :: stack[i + 1] != AtDone && (stack[i + 1] == Mode.InArray <==> open[i].Array?))
    && (forall i | 1 <= i < |open| :: stack[i] != AtKey)
  }

  function ObjectModes(stack: seq<Mode>): nat {
    if stack == [] then 0
    else ObjectModes(stack[..|stack| - 1]) + if stack[|stack| - 1] == Mode.InObject then 1 else 0
  }

  /** Whether the innermost object holds a key whose value has not arrived. */
  predicate KeyPending(p: Parser)
    requires p.stack != []
  {
    var top, s := p.stack[|p.stack| - 1], Effective(p);
    (top == Mode.InObject && !(s == OK && p.kind == NoType)) || (top == AtKey && s == CO)
  }

  function KeysDue(p: Parser): nat
    requires p.stack != []
  {
    ObjectModes(p.stack[..|p.stack| - 1]) + if KeyPending(p) then 1 else 0
  }

  predicate Ok(m: Core) {
    ParserOk(m.p) && Mirrors(m.p.stack, m.b.stack) && m.depth == |m.b.stack| && |m.b.keys| == KeysDue(m.p)
  }

  /** A finished document: one container, nothing open, no key left over. */
  predicate Finished(m: Core) {
    && m.p.state == OK && m.p.stack == [AtDone] && m.depth == 0
    && |m.b.stack| == 1 && (m.b.stack[0].Array? || m.b.stack[0].Object?) && m.b.keys == []
  }

  predicate Fine(o: Outcome<Core>) {
    !o.Fault? && (o.Go? ==> Ok(o.v) || Finished(o.v))
  }

  // ---- storing the character

  /** What storing the character leaves: the old parser, but for the buffer and the escape flag. */
  function Stored(p: Parser, buf: string): Parser {
    p.(buf := buf, escaped := false)
  }

  lemma AddCharIsSafe(p: Parser, c: char, k: Class)
    requires ParserOk(p)
    ensures !AddChar(p, c, k).Fault?
    ensures AddChar(p, c, k).Go? ==> AddChar(p, c, k).v == Stored(p, AddChar(p, c, k).v.buf)
    ensures AddChar(p, c, k).Go? && p.state != ES && !InComment(p.state) ==>
              (p.kind == NoType && (k.SPACE? || k.WHITE?)) || AddChar(p, c, k).v.buf == p.buf + [c]
    ensures InComment(p.state) || (p.kind == NoType && (k.SPACE? || k.WHITE?)) ==> AddChar(p, c, k) == Go(p)
    ensures AddChar(p, c, k).Go? && p.state == ES && c == 'u' ==> |AddChar(p, c, k).v.buf| >= 2
  {
  }

  // ---- next states

  lemma HexTailGrows(buf: string, n: nat, c: char)
    requires HexTail(buf, n) && HexValue(c) < 16
    ensures HexTail(buf + [c], n + 1)
  {
  }

  lemma HexClass(c: char)
    requires ClassOf(c).Some? && IsHex(ClassOf(c).value)
    ensures HexValue(c) < 16
  {
  }

  lemma StringMove(p: Parser, c: char, k: Class, q: Parser, s: State)
    requires ParserOk(p) && InStringState(p.state) && ClassOf(c) == Some(k)
    requires AddChar(p, c, k) == Go(q) && Next(p.state, k) == To(s)
    ensures ParserOk(q.(state := s)) && InStringState(s)
  {
    AddCharIsSafe(p, c, k);
    StringFamily(p.state, k, s);
    StringBuffer(p, c, k, q.buf, s);
    StringStays(p, q.buf, s);
  }

  lemma StringStays(p: Parser, buf: string, s: State)
    requires ParserOk(p) && InStringState(p.state) && InStringState(s) && !s.ES?
    requires p.hi != 0 ==> !s.ST?
    requires BufferFits(Stored(p, buf).(state := s))
    ensures ParserOk(Stored(p, buf).(state := s))
  {
    StringKind(p, buf, s);
    assert !InComment(p.state) && !InComment(s);
  }

  lemma StringKind(p: Parser, buf: string, s: State)
    requires KindFits(p) && InStringState(p.state) && InStringState(s)
    ensures KindFits(Stored(p, buf).(state := s))
  {
    assert !Idle(s) && !InComment(s) && !InNumber(s) && !InWord(s);
  }

  lemma StringBuffer(p: Parser, c: char, k: Class, buf: string, s: State)
    requires BufferFits(p) && StringFollows(p.state, k, s) && ClassOf(c) == Some(k)
    requires !p.state.ES? ==> buf == p.buf + [c]
    requires p.state.ES? && c == 'u' ==> |buf| >= 2
    ensures BufferFits(Stored(p, buf).(state := s))
  {
    if p.state == U1 || p.state == U2 || p.state == U3 {
      HexClass(c);
      HexTailGrows(p.buf, if p.state == U1 then 0 else if p.state == U2 then 1 else 2, c);
    } else if p.state == D2 {
      assert HexTail(p.buf + [c], 0);
    } else if s == U1 {
      UClass(c);
    }
  }

  lemma UClass(c: char)
    requires ClassOf(c) == Some(LOW_U)
    ensures c == 'u'
  {
  }

  /** Where a plain move inside a string can lead. */
  predicate StringFollows(s: State, k: Class, s': State) {
    match s
    case ST => s'.ST?
    case ES => s'.ST? || (s'.U1? && k.LOW_U?)
    case U1 => s'.U2? && IsHex(k)
    case U2 => s'.U3? && IsHex(k)
    case U3 => s'.U4? && IsHex(k)
    case D1 => s'.D2?
    case D2 => s'.U1?
    case _ => false
  }

  lemma StringFamily(s: State, k: Class, s': State)
    requires InStringState(s) && Next(s, k) == To(s')
    ensures StringFollows(s, k, s') && InStringState(s') && !s'.ES?
  {
    match s
    case ST =>
    case ES =>
    case U1 =>
    case U2 =>
    case U3 =>
    case U4 =>
    case D1 =>
    case D2 =>
  }

  lemma OtherMove(p: Parser, c: char, k: Class, q: Parser, s: State)
    requires ParserOk(p) && !InStringState(p.state) && ClassOf(c) == Some(k)
    requires AddChar(p, c, k) == Go(q) && Next(p.state, k) == To(s)
    ensures ParserOk(q.(state := s)) && KeyPending(q.(state := s)) == KeyPending(p)
  {
    AddCharIsSafe(p, c, k);
    MoveFamily(p.state, k, s);
    OtherStays(p, q.buf, s, k);
  }

  lemma OtherStays(p: Parser, buf: string, s: State, k: Class)
    requires ParserOk(p) && !InStringState(p.state) && Follows(p.state, k, s)
    requires p.kind == NoType && (k.SPACE? || k.WHITE? || InComment(p.state)) ==> buf == ""
    requires p.kind == NoType ==> k.SPACE? || k.WHITE? || InComment(p.state)
    ensures var q := Stored(p, buf).(state := s); ParserOk(q) && KeyPending(q) == KeyPending(p)
  {
    if p.kind == NoType {
      QuietMove(p, s, k);
    } else {
      ScalarMove(p, buf, s, k);
    }
  }

  lemma QuietMove(p: Parser, s: State, k: Class)
    requires ParserOk(p) && !InStringState(p.state) && Follows(p.state, k, s) && p.kind == NoType
    ensures var q := Stored(p, "").(state := s); ParserOk(q) && KeyPending(q) == KeyPending(p)
  {
  }

  lemma ScalarMove(p: Parser, buf: string, s: State, k: Class)
    requires ParserOk(p) && !InStringState(p.state) && Follows(p.state, k, s) && p.kind != NoType
    ensures var q := Stored(p, buf).(state := s); ParserOk(q) && KeyPending(q) == KeyPending(p)
  {
    var q := Stored(p, buf).(state := s);
    assert Effective(q) == s && Effective(p) == p.state;
    assert KindFits(q) by {
      ScalarKind(p, buf, s, k);
    }
  }

  lemma ScalarKind(p: Parser, buf: string, s: State, k: Class)
    requires KindFits(p) && !InStringState(p.state) && Follows(p.state, k, s) && p.kind != NoType
    ensures KindFits(Stored(p, buf).(state := s)) && !Idle(s) && !InComment(s) && !InStringState(s)
  {
    if !s.OK? {
      ScalarGoesOn(p, buf, s, k);
    }
  }

  lemma ScalarGoesOn(p: Parser, buf: string, s: State, k: Class)
    requires KindFits(p) && !InStringState(p.state) && Follows(p.state, k, s) && p.kind != NoType && !s.OK?
    ensures KindFits(Stored(p, buf).(state := s)) && !Idle(s) && !InComment(s) && !InStringState(s)
  {
    if InInteger(p.state) {
      IntegerGoesOn(p, buf, s);
    } else if InFloat(p.state) {
      FloatGoesOn(p, buf, s);
    } else if InTrue(p.state) {
      TrueGoesOn(p, buf, s);
    } else if InFalse(p.state) {
      FalseGoesOn(p, buf, s);
    } else {
      NullGoesOn(p, buf, s);
    }
  }

  lemma IntegerGoesOn(p: Parser, buf: string, s: State)
    requires KindFits(p) && p.kind == IntegerType && InInteger(s)
    ensures KindFits(Stored(p, buf).(state := s)) && !Idle(s) && !InComment(s) && !InStringState(s)
  {
  }

  lemma FloatGoesOn(p: Parser, buf: string, s: State)
    requires KindFits(p) && p.kind == FloatType && InFloat(s)
    ensures KindFits(Stored(p, buf).(state := s)) && !Idle(s) && !InComment(s) && !InStringState(s)
  {
  }

  lemma TrueGoesOn(p: Parser, buf: string, s: State)
    requires KindFits(p) && p.kind == TrueType && InTrue(s)
    ensures KindFits(Stored(p, buf).(state := s)) && !Idle(s) && !InComment(s) && !InStringState(s)
  {
  }

  lemma FalseGoesOn(p: Parser, buf: string, s: State)
    requires KindFits(p) && p.kind == FalseType && InFalse(s)
    ensures KindFits(Stored(p, buf).(state := s)) && !Idle(s) && !InComment(s) && !InStringState(s)
  {
  }

  lemma NullGoesOn(p: Parser, buf: string, s: State)
    requires KindFits(p) && p.kind == NullType && InNull(s)
    ensures KindFits(Stored(p, buf).(state := s)) && !Idle(s) && !InComment(s) && !InStringState(s)
  {
  }

  /** Where a plain move outside strings can lead. */
  predicate Follows(s: State, k: Class, s': State) {
    if Idle(s) then s' == s && (k.SPACE? || k.WHITE?)
    else if InComment(s) then InComment(s')
    else if s.OK? then s'.OK? && (k.SPACE? || k.WHITE?)
    else s'.OK? || (InInteger(s) && InInteger(s')) || (InFloat(s) && InFloat(s'))
         || (InTrue(s) && InTrue(s')) || (InFalse(s) && InFalse(s')) || (InNull(s) && InNull(s'))
  }

  lemma MoveFamily(s: State, k: Class, s': State)
    requires !InStringState(s) && Next(s, k) == To(s')
    ensures Follows(s, k, s')
  {
    if InInteger(s) {
      IntegerFamily(s, k, s');
    } else if InFloat(s) {
      FloatFamily(s, k, s');
    } else if InWord(s) {
      WordFamily(s, k, s');
    } else if InComment(s) {
      CommentFamily(s, k, s');
    } else {
      TokenFamily(s, k, s');
    }
  }

  lemma IntegerFamily(s: State, k: Class, s': State)
    requires InInteger(s) && NumberNext(s, k) == To(s')
    ensures Follows(s, k, s')
  {
  }

  lemma FloatFamily(s: State, k: Class, s': State)
    requires InFloat(s) && NumberNext(s, k) == To(s')
    ensures Follows(s, k, s')
  {
    if AfterValue(k).To? {
      AfterValueMoves(k);
    }
    match s
    case FX => case FR => case E1 => case E2 => case E3 =>
    case _ =>
  }

  lemma AfterValueMoves(k: Class)
    requires AfterValue(k).To?
    ensures AfterValue(k) == To(OK) && (k.SPACE? || k.WHITE?)
  {
  }

  lemma WordFamily(s: State, k: Class, s': State)
    requires InWord(s) && WordNext(s, k) == To(s')
    ensures Follows(s, k, s')
  {
  }

  lemma CommentFamily(s: State, k: Class, s': State)
    requires InComment(s) && CommentNext(s, k) == To(s')
    ensures Follows(s, k, s')
  {
  }

  lemma TokenFamily(s: State, k: Class, s': State)
    requires (Idle(s) || s.OK?) && TokenNext(s, k) == To(s')
    ensures Follows(s, k, s')
  {
  }

  // ---- which states an action can be taken in

  /** States in which a value has just been read or is being read as a number. */
  predicate EndsValue(s: State) {
    s.OK? || s.ZE? || s.IT? || s.FR? || s.E3? || s.FX?
  }

  predicate From(e: Entry, s: State) {
    match e
    case To(_) => true
    case Bad => true
    case Unicode => s.U4?
    case Escape => s.ST?
    case StringEnd => s.ST?
    case IntByMinus => s.VA? || s.AR?
    case IntByZero => s.VA? || s.AR?
    case IntByDigit => s.VA? || s.AR?
    case Null => s.VA? || s.AR?
    case False => s.VA? || s.AR?
    case True => s.VA? || s.AR?
    case FloatByExp => InInteger(s)
    case FloatByPoint => InInteger(s)
    case StringBegin => s.OB? || s.KE? || s.VA? || s.AR?
    case CommentEnd => InComment(s)
    case CommentBegin => !InStringState(s) && !InComment(s)
    case EmptyObject => s.OB?
    case ObjectEnd => EndsValue(s)
    case ArrayEnd => EndsValue(s) || s.AR?
    case Comma => EndsValue(s)
    case ObjectBegin => s.GO? || s.VA? || s.AR?
    case ArrayBegin => s.GO? || s.VA? || s.AR?
    case Colon => s.CO?
  }

  lemma FromTokens(s: State, k: Class)
    requires Idle(s) || s.OK?
    ensures From(TokenNext(s, k), s)
  {
    match s
    case GO => case OB => case KE => case CO => case VA => case AR => case OK =>
    case _ =>
  }

  lemma FromStrings(s: State, k: Class)
    requires InStringState(s)
    ensures From(StringNext(s, k), s)
  {
  }

  lemma FromNumbers(s: State, k: Class)
    requires InNumber(s)
    ensures From(NumberNext(s, k), s)
  {
    if InInteger(s) {
      FromIntegers(s, k);
    } else {
      FromFloats(s, k);
    }
  }

  lemma FromIntegers(s: State, k: Class)
    requires InInteger(s)
    ensures From(NumberNext(s, k), s)
  {
    match s
    case MI => case ZE => case IT =>
    case _ =>
  }

  lemma FromFloats(s: State, k: Class)
    requires InFloat(s)
    ensures From(NumberNext(s, k), s)
  {
    match s
    case FX => case FR => case E1 => case E2 => case E3 =>
    case _ =>
  }

  lemma FromComments(s: State, k: Class)
    requires InComment(s)
    ensures From(CommentNext(s, k), s)
  {
  }

  lemma ActionsFrom(s: State, k: Class)
    ensures From(Next(s, k), s)
  {
    if InStringState(s) {
      assert Next(s, k) == StringNext(s, k);
      FromStrings(s, k);
    } else if InNumber(s) {
      NumbersFrom(s, k);
    } else if InWord(s) {
      WordsFrom(s, k);
    } else {
      OthersFrom(s, k);
    }
  }

  lemma NumberRow(s: State, k: Class)
    requires InNumber(s)
    ensures Next(s, k) == NumberNext(s, k)
  {
    assert !InStringState(s);
  }

  lemma NumbersFrom(s: State, k: Class)
    requires InNumber(s)
    ensures From(Next(s, k), s)
  {
    NumberRow(s, k);
    FromNumbers(s, k);
  }

  lemma WordsFrom(s: State, k: Class)
    requires InWord(s)
    ensures From(Next(s, k), s)
  {
    if InTrue(s) {
      TrueFrom(s, k);
    } else if InFalse(s) {
      FalseFrom(s, k);
    } else {
      NullFrom(s, k);
    }
  }

  lemma TrueFrom(s: State, k: Class)
    requires InTrue(s)
    ensures From(Next(s, k), s)
  {
    TrueRow(s, k);
    FromTrue(s, k);
  }

  lemma TrueRow(s: State, k: Class)
    requires InTrue(s)
    ensures Next(s, k) == WordNext(s, k)
  {
    assert InWord(s) && !InStringState(s) && !InNumber(s);
  }

  lemma FromTrue(s: State, k: Class)
    requires InTrue(s)
    ensures From(WordNext(s, k), s)
  {
  }

  lemma FalseFrom(s: State, k: Class)
    requires InFalse(s)
    ensures From(Next(s, k), s)
  {
    FalseRow(s, k);
    FromFalse(s, k);
  }

  lemma FalseRow(s: State, k: Class)
    requires InFalse(s)
    ensures Next(s, k) == WordNext(s, k)
  {
    assert InWord(s) && !InStringState(s) && !InNumber(s);
  }

  lemma FromFalse(s: State, k: Class)
    requires InFalse(s)
    ensures From(WordNext(s, k), s)
  {
  }

  lemma NullFrom(s: State, k: Class)
    requires InNull(s)
    ensures From(Next(s, k), s)
  {
    NullRow(s, k);
    FromNull(s, k);
  }

  lemma NullRow(s: State, k: Class)
    requires InNull(s)
    ensures Next(s, k) == WordNext(s, k)
  {
    assert InWord(s) && !InStringState(s) && !InNumber(s);
  }

  lemma FromNull(s: State, k: Class)
    requires InNull(s)
    ensures From(WordNext(s, k), s)
  {
  }

  lemma OthersFrom(s: State, k: Class)
    requires !InStringState(s) && !InNumber(s) && !InWord(s)
    ensures From(Next(s, k), s)
  {
    if InComment(s) {
      assert Next(s, k) == CommentNext(s, k);
      FromComments(s, k);
    } else {
      assert Next(s, k) == TokenNext(s, k);
      FromTokens(s, k);
    }
  }

  // ---- the builder under the mode stack

  lemma AddInside(stack: seq<Mode>, b: Builder, v: Value)
    requires Mirrors(stack, b.stack) && b.stack != []
    ensures var o := AddValue(b, v);
            o.Some? ==> Mirrors(stack, o.value.stack) && |o.value.stack| == |b.stack|
                        && |o.value.keys| == |b.keys| - if b.Top().Object? then 1 else 0
  {
    var o := AddValue(b, v);
    if o.Some? {
      assert b.InObject() || b.InArray();
      SameKindOnTop(stack, b.stack, o.value.stack[|b.stack| - 1]);
    }
  }

  /** A container replaced by one of the same kind. */
  lemma SameKindOnTop(stack: seq<Mode>, open: seq<Value>, v: Value)
    requires Mirrors(stack, open) && open != []
    requires if open[|open| - 1].Array? then v.Array? else v.Object?
    ensures Mirrors(stack, open[|open| - 1 := v])
  {
  }

  /** Reporting a pending scalar keeps the shape and settles the pending key. */
  lemma FlushIsSafe(m: Core)
    requires Ok(m) && m.p.stack[|m.p.stack| - 1] != AtDone
         && (m.p.kind != NoType ==> m.p.stack[|m.p.stack| - 1] != AtKey)
    ensures !Flush(m).Fault?
    ensures Flush(m).Go? ==>
              var m1 := Flush(m).v;
              m1.p == m.p.(buf := "") && m1.depth == m.depth && Mirrors(m.p.stack, m1.b.stack)
              && |m1.b.keys| == ObjectModes(m.p.stack[..|m.p.stack| - 1])
                                + if m.p.kind == NoType && KeyPending(m.p) then 1 else 0
  {
    if m.p.kind != NoType {
      AddInside(m.p.stack, m.b, PendingValue(m.p.kind, m.p.buf));
      assert KeyPending(m.p) == (m.p.stack[|m.p.stack| - 1] == Mode.InObject);
    }
  }

  lemma Popped(p: Parser, c: char)
    ensures PopChar(p.(buf := p.buf + [c])) == Go(p)
  {
    assert (p.buf + [c])[..|p.buf|] == p.buf;
  }

  function With(m: Core, c: char): Core {
    m.(p := m.p.(buf := m.p.buf + [c]))
  }

  /** Handing a closed container outwards: to the one around it, or as the finished tree. */
  lemma CloseIsSafe(stack: seq<Mode>, b: Builder, isArray: bool, p: Parser)
    requires |stack| >= 2 && Mirrors(stack, b.stack) && |b.keys| == ObjectModes(stack[..|stack| - 1])
    requires p.state == OK && p.kind == NoType && p.stack == stack[..|stack| - 1] && ParserRest(p)
    ensures var o := CloseContainer(b, isArray);
            o.Some? ==> var m := Core(p, |b.stack| - 1, o.value); Ok(m) || Finished(m)
  {
    if CloseContainer(b, isArray).Some? {
      if |b.stack| == 1 {
        RootFinished(stack, b, isArray, p);
      } else {
        InnerCloses(stack, b, isArray);
        SettledOk(Core(p, |b.stack| - 1, CloseContainer(b, isArray).value), p);
      }
    }
  }

  lemma RootFinished(stack: seq<Mode>, b: Builder, isArray: bool, p: Parser)
    requires |b.stack| == 1 && Mirrors(stack, b.stack) && |b.keys| == ObjectModes(stack[..1])
    requires p.state == OK && p.stack == stack[..1] && CloseContainer(b, isArray).Some?
    ensures Finished(Core(p, 0, CloseContainer(b, isArray).value))
  {
    RootCloses(stack, b, isArray);
  }

  lemma RootCloses(stack: seq<Mode>, b: Builder, isArray: bool)
    requires |b.stack| == 1 && Mirrors(stack, b.stack) && |b.keys| == ObjectModes(stack[..1])
    requires CloseContainer(b, isArray).Some?
    ensures stack[..1] == [AtDone] && CloseContainer(b, isArray) == Some(b) && b.keys == []
  {
    assert b.stack[..0] + [b.Top()] == b.stack;
    assert stack[..1] == [AtDone] && stack[..1][..0] == [] && ObjectModes([]) == 0;
  }

  lemma InnerCloses(stack: seq<Mode>, b: Builder, isArray: bool)
    requires |b.stack| >= 2 && Mirrors(stack, b.stack) && |b.keys| == ObjectModes(stack[..|stack| - 1])
    requires CloseContainer(b, isArray).Some?
    ensures var front, b' := stack[..|stack| - 1], CloseContainer(b, isArray).value;
            && Mirrors(front, b'.stack) && |b'.stack| == |b.stack| - 1 && |b'.keys| == ObjectModes(front[..|front| - 1])
            && (front[|front| - 1] == Mode.InArray || front[|front| - 1] == Mode.InObject)
  {
    var outer := Builder(b.stack[..|b.stack| - 1], b.keys);
    var front := stack[..|stack| - 1];
    assert Mirrors(front, outer.stack);
    AddInside(front, outer, b.Top());
  }

  predicate ParserRest(p: Parser) {
    !p.escaped && !p.comment && p.hi == 0 && p.buf == ""
  }

  // ---- each action

  lemma EndIsSafe(m: Core, c: char, mode: Mode)
    requires Ok(m) && (EndsValue(m.p.state) || m.p.state == AR) && (mode == Mode.InArray || mode == Mode.InObject)
    ensures Fine(OnEnd(With(m, c), mode))
  {
    Popped(m.p, c);
    NoKeyDue(m.p);
    FlushIsSafe(m);
    EndUnfolds(m, c, mode);
    if Flush(m).Go? {
      FlushedEndIsSafe(m.p, Flush(m).v, mode);
    }
  }

  lemma EndUnfolds(m: Core, c: char, mode: Mode)
    requires !Flush(m).Fault?
    ensures OnEnd(With(m, c), mode) == if Flush(m).Go? then HandOver(Flush(m).v, mode) else Reject
  {
    Popped(m.p, c);
  }

  lemma NoKeyDue(p: Parser)
    requires ParserOk(p) && (EndsValue(p.state) || p.state == AR)
    ensures TopMode(p) == Some(Mode.InArray) || TopMode(p) == Some(Mode.InObject)
    ensures !(p.kind == NoType && KeyPending(p)) && !p.escaped && !p.comment && p.hi == 0
  {
  }

  lemma FlushedEndIsSafe(p: Parser, m1: Core, mode: Mode)
    requires p.stack != [] && !p.escaped && !p.comment && p.hi == 0
    requires m1.p == p.(buf := "") && m1.depth == |m1.b.stack| && Mirrors(p.stack, m1.b.stack)
    requires TopMode(p) == Some(Mode.InArray) || TopMode(p) == Some(Mode.InObject)
    requires |m1.b.keys| == ObjectModes(p.stack[..|p.stack| - 1])
    ensures Fine(HandOver(m1, mode))
  {
    CloseIsSafe(p.stack, m1.b, mode.InArray?, m1.p.(kind := NoType, state := OK, stack := p.stack[..|p.stack| - 1]));
  }

  lemma EmptyIsSafe(m: Core, c: char)
    requires Ok(m) && m.p.state == OB
    ensures Fine(OnEmptyObject(With(m, c)))
  {
    CloseIsSafe(m.p.stack, m.b, false, m.p.(buf := "", state := OK, stack := m.p.stack[..|m.p.stack| - 1]));
  }

  lemma BeginIsSafe(m: Core, c: char, v: Value, mode: Mode, s: State)
    requires Ok(m) && (m.p.state == GO || m.p.state == VA || m.p.state == AR)
    requires (v == Array([]) && mode == Mode.InArray && s == AR) || (v == Object([]) && mode == AtKey && s == OB)
    ensures Fine(OnBegin(With(m, c), v, mode, s))
  {
    Popped(m.p, c);
    var p := m.p.(stack := m.p.stack + [mode], state := s);
    assert OnBegin(With(m, c), v, mode, s) == Go(Core(p, m.depth + 1, m.b.Push(v)));
    PushMirrors(m.p.stack, m.b.stack, mode, v);
    assert p.stack[..|m.p.stack|] == m.p.stack;
    assert ParserOk(p);
  }

  lemma PushMirrors(stack: seq<Mode>, open: seq<Value>, mode: Mode, v: Value)
    requires Mirrors(stack, open) && stack[|stack| - 1] != AtKey
    requires (v.Array? && mode == Mode.InArray) || (v.Object? && mode == AtKey)
    ensures Mirrors(stack + [mode], open + [v])
  {
  }

  /** Trading key mode for object mode, or back, keeps the mirror. */
  lemma SwapMirrors(stack: seq<Mode>, open: seq<Value>, mode: Mode)
    requires Mirrors(stack, open) && |stack| >= 2
    requires stack[|stack| - 1] != Mode.InArray && (mode == AtKey || mode == Mode.InObject)
    ensures Mirrors(stack[..|stack| - 1] + [mode], open)
  {
  }

  lemma StringEndIsSafe(m: Core, c: char)
    requires Ok(m) && m.p.state == ST
    ensures Fine(OnStringEnd(With(m, c)))
  {
    Popped(m.p, c);
    if TopMode(m.p) == Some(AtKey) {
      KeyEndIsSafe(m, c);
    } else {
      ValueEndIsSafe(m, c);
    }
  }

  lemma ValueEndIsSafe(m: Core, c: char)
    requires Ok(m) && m.p.state == ST && TopMode(m.p) != Some(AtKey)
    ensures Fine(OnStringEnd(With(m, c)))
  {
    Popped(m.p, c);
    FlushIsSafe(m);
    if Flush(m).Go? {
      var m1 := Flush(m).v;
      SettledOk(m1, m1.p.(kind := NoType, state := OK));
    }
  }

  /** After a value the innermost container awaits nothing but a separator or its end. */
  lemma SettledOk(m: Core, p: Parser)
    requires Mirrors(p.stack, m.b.stack) && m.depth == |m.b.stack|
    requires p.stack != [] && |m.b.keys| == ObjectModes(p.stack[..|p.stack| - 1]) && p.kind == NoType && ParserRest(p)
    requires p.state == OK && (TopMode(p) == Some(Mode.InArray) || TopMode(p) == Some(Mode.InObject))
    ensures Ok(m.(p := p))
  {
  }

  lemma KeyEndIsSafe(m: Core, c: char)
    requires Ok(m) && m.p.state == ST && TopMode(m.p) == Some(AtKey)
    ensures Fine(OnStringEnd(With(m, c)))
  {
    Popped(m.p, c);
    var b := AddKey(m.b, CString(m.p.buf));
    if b.Some? {
      assert Ok(m.(p := m.p.(kind := NoType, state := CO, buf := ""), b := b.value));
    }
  }

  lemma CommaIsSafe(m: Core, c: char)
    requires Ok(m) && EndsValue(m.p.state)
    ensures Fine(OnComma(With(m, c)))
  {
    Popped(m.p, c);
    FlushIsSafe(m);
    if Flush(m).Go? {
      AfterCommaIsSafe(m, Flush(m).v, m.p.stack[..|m.p.stack| - 1]);
    }
  }

  /** What a comma makes of the parser once the scalar before it has been reported. */
  function AfterComma(p: Parser, front: seq<Mode>): Parser {
    if TopMode(p) == Some(Mode.InObject) then p.(stack := front + [AtKey], kind := NoType, state := KE)
    else p.(kind := NoType, state := VA)
  }

  lemma AfterCommaIsSafe(m: Core, m1: Core, front: seq<Mode>)
    requires Ok(m) && EndsValue(m.p.state) && front == m.p.stack[..|m.p.stack| - 1]
    requires m1.p == m.p.(buf := "") && m1.depth == m.depth && Mirrors(m.p.stack, m1.b.stack)
    requires |m1.b.keys| == ObjectModes(front)
    ensures Ok(m1.(p := AfterComma(m1.p, front)))
  {
    var p := AfterComma(m1.p, front);
    assert p.stack[..|p.stack| - 1] == front;
    if TopMode(m.p) == Some(Mode.InObject) {
      SwapMirrors(m.p.stack, m1.b.stack, AtKey);
    }
    CommaResult(m1, front, p);
  }

  lemma CommaResult(m: Core, front: seq<Mode>, p: Parser)
    requires Mirrors(p.stack, m.b.stack) && m.depth == |m.b.stack| && |m.b.keys| == ObjectModes(front)
    requires p.stack != [] && p.stack[..|p.stack| - 1] == front && p.kind == NoType && ParserRest(p)
    requires (p.state == KE && TopMode(p) == Some(AtKey)) || (p.state == VA && TopMode(p) == Some(Mode.InArray))
    ensures Ok(m.(p := p))
  {
  }

  lemma ColonIsSafe(m: Core, c: char)
    requires Ok(m) && m.p.state == CO
    ensures Fine(OnColon(With(m, c)))
  {
    Popped(m.p, c);
    var front := m.p.stack[..|m.p.stack| - 1];
    var p := m.p.(stack := front + [Mode.InObject], state := VA);
    assert OnColon(With(m, c)) == Go(m.(p := p));
    SwapMirrors(m.p.stack, m.b.stack, Mode.InObject);
    ColonParser(m.p, front);
  }

  lemma ColonParser(p: Parser, front: seq<Mode>)
    requires ParserOk(p) && p.state == CO && front == p.stack[..|p.stack| - 1]
    ensures var p' := p.(stack := front + [Mode.InObject], state := VA); ParserOk(p') && KeysDue(p') == KeysDue(p)
  {
    var p' := p.(stack := front + [Mode.InObject], state := VA);
    assert p'.stack[..|front|] == front;
  }

  lemma CommentBeginIsSafe(m: Core, c: char)
    requires Ok(m) && !InStringState(m.p.state) && !InComment(m.p.state)
    ensures Fine(OnCommentBegin(With(m, c)))
  {
    if Idle(m.p.state) {
      IdleComment(m);
    } else {
      FlushIsSafe(m);
      if Flush(m).Go? {
        ValueComment(m, Flush(m).v);
      }
    }
    CommentBegun(m, c);
  }

  lemma CommentBegun(m: Core, c: char)
    requires !Flush(m).Fault?
    requires Flush(m).Go? ==> !Flush(m).v.p.kind.StringType? && Flush(m).v.p.stack != []
    ensures OnCommentBegin(With(m, c)) == if Flush(m).Go? then Go(Commented(Flush(m).v)) else Reject
  {
    Popped(m.p, c);
  }

  function BeforeComment(p: Parser): State
    requires p.stack != []
  {
    var top := p.stack[|p.stack| - 1];
    if (top.InArray? || top.InObject?) && p.state != VA && p.state != AR then OK else p.state
  }

  function Commented(m: Core): Core
    requires m.p.stack != []
  {
    m.(p := m.p.(buf := "", beforeComment := BeforeComment(m.p), kind := NoType, state := C1, comment := true))
  }

  lemma IdleComment(m: Core)
    requires Ok(m) && Idle(m.p.state)
    ensures Flush(m) == Go(m) && Ok(Commented(m))
  {
    assert BeforeComment(m.p) == m.p.state;
  }

  lemma ValueComment(m: Core, m1: Core)
    requires Ok(m) && !InStringState(m.p.state) && !InComment(m.p.state) && !Idle(m.p.state)
    requires m1.p == m.p.(buf := "") && m1.depth == m.depth && Mirrors(m.p.stack, m1.b.stack)
    requires |m1.b.keys| == ObjectModes(m.p.stack[..|m.p.stack| - 1])
    ensures Ok(Commented(m1))
  {
    assert BeforeComment(m1.p) == OK;
  }

  lemma UnicodeIsSafe(m: Core, c: char)
    requires Ok(m) && m.p.state == U4 && HexValue(c) < 16
    ensures Fine(OnUnicode(With(m, c)))
  {
    var o := DecodeUnicode(With(m, c).p);
    DecodedParser(m.p, c);
    if o.Go? {
      SameKeys(m, o.v.(state := if o.v.hi != 0 then D1 else ST));
    }
  }

  lemma DecodedParser(p: Parser, c: char)
    requires ParserOk(p) && p.state == U4 && HexValue(c) < 16
    ensures var o := DecodeUnicode(p.(buf := p.buf + [c]));
            && !o.Fault?
            && (o.Go? ==> ParserOk(o.v.(state := if o.v.hi != 0 then D1 else ST)) && o.v.stack == p.stack)
  {
    var o := DecodeUnicode(p.(buf := p.buf + [c]));
    HexTailGrows(p.buf, 3, c);
    DecodeChanges(p.(buf := p.buf + [c]));
    if o.Go? {
      BackInString(p, o.v.hi, o.v.buf);
    }
  }

  /** Decoding an escape needs its digits and touches the buffer and the pending surrogate only. */
  lemma DecodeChanges(p: Parser)
    requires HexTail(p.buf, 4)
    ensures !DecodeUnicode(p).Fault?
    ensures DecodeUnicode(p).Go? ==>
              DecodeUnicode(p).v == p.(hi := DecodeUnicode(p).v.hi, buf := DecodeUnicode(p).v.buf)
  {
    var n := |p.buf|;
    assert HexValue(p.buf[n - 4]) < 16 && HexValue(p.buf[n - 3]) < 16;
    assert HexValue(p.buf[n - 2]) < 16 && HexValue(p.buf[n - 1]) < 16;
  }

  lemma BackInString(p: Parser, hi: nat, buf: string)
    requires ParserOk(p) && p.state == U4
    ensures ParserOk(p.(hi := hi, buf := buf, state := if hi != 0 then D1 else ST))
  {
  }

  /** The type reported for a scalar goes with its first state. */
  predicate Fits(t: Type, s: State) {
    || (t == IntegerType && InInteger(s)) || (t == TrueType && InTrue(s))
    || (t == FalseType && InFalse(s)) || (t == NullType && InNull(s))
  }

  /** The parser once it has taken the first character of a scalar. */
  function Taken(p: Parser, c: char, t: Type, s: State): (q: Parser)
    ensures q.stack == p.stack
  {
    p.(buf := p.buf + [c], kind := t, state := s)
  }

  lemma ScalarIsSafe(m: Core, c: char, t: Type, s: State)
    requires Ok(m) && (m.p.state == VA || m.p.state == AR) && Fits(t, s)
    ensures Ok(m.(p := Taken(m.p, c, t, s)))
  {
    ScalarParser(m.p, c, t, s);
    SameKeys(m, Taken(m.p, c, t, s));
  }

  lemma ScalarParser(p: Parser, c: char, t: Type, s: State)
    requires ParserOk(p) && (p.state == VA || p.state == AR) && Fits(t, s)
    ensures ParserOk(Taken(p, c, t, s))
    ensures KeyPending(Taken(p, c, t, s)) == KeyPending(p)
  {
    var q := Taken(p, c, t, s);
    KindOfScalar(q);
    assert !InStringState(s) && !InComment(s) && !Idle(s) && s != OK && t != NoType;
    assert !q.escaped && !q.comment && q.hi == 0;
    assert TopMode(p) == Some(Mode.InArray) || TopMode(p) == Some(Mode.InObject);
  }

  lemma KindOfScalar(p: Parser)
    requires p.buf != "" && Fits(p.kind, p.state)
    ensures KindFits(p)
  {
  }

  lemma FloatIsSafe(m: Core, c: char, s: State)
    requires Ok(m) && InInteger(m.p.state) && InFloat(s)
    ensures Fine(OnParser(With(m, c), ToFloat(With(m, c).p, s)))
  {
    FloatParser(m.p, c, s);
    SameKeys(m, m.p.(buf := m.p.buf + [c], kind := FloatType, state := s));
  }

  lemma FloatParser(p: Parser, c: char, s: State)
    requires ParserOk(p) && InInteger(p.state) && InFloat(s)
    ensures var p' := p.(buf := p.buf + [c], kind := FloatType, state := s);
            && ToFloat(p.(buf := p.buf + [c]), s) == Go(p') && ParserOk(p') && KeyPending(p') == KeyPending(p)
  {
  }

  lemma StringBeginIsSafe(m: Core, c: char)
    requires Ok(m) && (m.p.state == OB || m.p.state == KE || m.p.state == VA || m.p.state == AR)
    ensures Fine(OnParser(With(m, c), StartScalar(With(m, c).p.(buf := ""), StringType, ST)))
  {
    assert Ok(m.(p := m.p.(buf := "", kind := StringType, state := ST)));
  }

  lemma EscapeIsSafe(m: Core, c: char)
    requires Ok(m) && m.p.state == ST
    ensures Ok(m.(p := m.p.(buf := m.p.buf + [c], escaped := true, state := ES)))
  {
  }

  lemma CommentEndIsSafe(m: Core)
    requires Ok(m) && InComment(m.p.state)
    ensures Fine(Act(m, CommentEnd))
  {
    CommentEndParser(m.p);
    SameKeys(m, m.p.(comment := false, state := m.p.beforeComment));
  }

  lemma CommentEndParser(p: Parser)
    requires ParserOk(p) && InComment(p.state)
    ensures p.kind == NoType && p.buf == ""
    ensures var p' := p.(comment := false, state := p.beforeComment); ParserOk(p') && KeyPending(p') == KeyPending(p)
  {
  }

  /** A plain move keeps the invariant. */
  lemma MoveIsSafe(m: Core, c: char, k: Class, q: Parser, s: State)
    requires Ok(m) && ClassOf(c) == Some(k) && AddChar(m.p, c, k) == Go(q) && Next(m.p.state, k) == To(s)
    ensures Ok(m.(p := q.(state := s)))
  {
    AddCharIsSafe(m.p, c, k);
    if InStringState(m.p.state) {
      StringMove(m.p, c, k, q, s);
    } else {
      OtherMove(m.p, c, k, q, s);
    }
    SameKeys(m, q.(state := s));
  }

  lemma SameKeys(m: Core, p: Parser)
    requires Ok(m) && ParserOk(p) && p.stack == m.p.stack
    requires KeyPending(p) == KeyPending(m.p) || (InStringState(p.state) && InStringState(m.p.state))
    ensures Ok(m.(p := p))
  {
  }

  /** Actions that work on the stored character. */
  lemma ActionIsSafe(m: Core, c: char, k: Class)
    requires Ok(m) && ClassOf(c) == Some(k) && !Next(m.p.state, k).To? && !InComment(m.p.state)
    ensures Fine(Act(With(m, c), Next(m.p.state, k)))
  {
    ActionsFrom(m.p.state, k);
    match Next(m.p.state, k)
    case Bad =>
    case Unicode => UnicodeClass(m.p.state, c, k); UnicodeIsSafe(m, c);
    case Escape => EscapeIsSafe(m, c);
    case IntByMinus => ScalarIsSafe(m, c, IntegerType, MI);
    case IntByZero => ScalarIsSafe(m, c, IntegerType, ZE);
    case IntByDigit => ScalarIsSafe(m, c, IntegerType, IT);
    case Null => ScalarIsSafe(m, c, NullType, N1);
    case False => ScalarIsSafe(m, c, FalseType, F1);
    case True => ScalarIsSafe(m, c, TrueType, T1);
    case FloatByExp => FloatIsSafe(m, c, E1);
    case FloatByPoint => FloatIsSafe(m, c, FX);
    case StringBegin => StringBeginIsSafe(m, c);
    case CommentBegin => CommentBeginIsSafe(m, c);
    case EmptyObject => EmptyIsSafe(m, c);
    case ObjectEnd => EndIsSafe(m, c, Mode.InObject);
    case ArrayEnd => EndIsSafe(m, c, Mode.InArray);
    case ObjectBegin => BeginIsSafe(m, c, Object([]), AtKey, OB);
    case ArrayBegin => BeginIsSafe(m, c, Array([]), Mode.InArray, AR);
    case StringEnd => StringEndIsSafe(m, c);
    case Comma => CommaIsSafe(m, c);
    case Colon => ColonIsSafe(m, c);
    case CommentEnd =>
    case To(_) =>
  }

  lemma UnicodeClass(s: State, c: char, k: Class)
    requires ClassOf(c) == Some(k) && Next(s, k) == Unicode
    ensures HexValue(c) < 16
  {
    UnicodeHex(s, k);
    HexClass(c);
  }

  lemma UnicodeHex(s: State, k: Class)
    requires Next(s, k) == Unicode
    ensures IsHex(k)
  {
    ActionsFrom(s, k);
  }

  /** White space never triggers an action; in an escape no action is taken at all. */
  lemma NoActionOnBlank(s: State, k: Class)
    requires !Next(s, k).To? && !Next(s, k).Bad?
    ensures !s.ES? && !k.SPACE? && !k.WHITE?
  {
    ActionsFrom(s, k);
    if k.SPACE? || k.WHITE? || s.ES? {
      BlankMoves(s, k);
    }
  }

  lemma BlankMoves(s: State, k: Class)
    requires (k.SPACE? || k.WHITE?) || s.ES?
    ensures From(Next(s, k), s) ==> Next(s, k).To? || Next(s, k).Bad?
  {
  }

  lemma StepIsSafe(m: Core, c: char)
    requires Ok(m)
    ensures Fine(ParserChar(m, c))
  {
    if ClassOf(c).Some? {
      var k := ClassOf(c).value;
      AddCharIsSafe(m.p, c, k);
      var e := Next(m.p.state, k);
      if AddChar(m.p, c, k).Go? {
        var q := AddChar(m.p, c, k).v;
        if e.To? {
          MoveIsSafe(m, c, k, q, e.s);
        } else if !e.Bad? {
          NoActionOnBlank(m.p.state, k);
          if InComment(m.p.state) {
            ActionsFrom(m.p.state, k);
            CommentEndIsSafe(m);
          } else {
            ActionIsSafe(m, c, k);
          }
        }
      }
    }
  }

  // ---- whole texts

  predicate Sound(s: Status) {
    match s
    case Running(m) => Ok(m)
    case Done(m) => |m.b.stack| == 1 && (m.b.stack[0].Array? || m.b.stack[0].Object?) && m.b.keys == []
      && m.p.stack == []
    case Error => true
    case Aborted => false
  }

  lemma FeedIsSafe(s: Status, c: char)
    requires Sound(s)
    ensures Sound(Feed(s, c))
  {
    if s.Running? {
      StepIsSafe(s.m, c);
    }
  }

  lemma {:induction false} FeedAllIsSafe(s: Status, text: string)
    requires Sound(s)
    ensures Sound(FeedAll(s, text))
    decreases |text|
  {
    if text != "" {
      FeedIsSafe(s, text[0]);
      FeedAllIsSafe(Feed(s, text[0]), text[1..]);
    }
  }

  /**
   * For every text: no assertion fails and no empty stack is read; and if the parser reports
   * it is done, the builder holds exactly one container, no key is left over, and no mode is open.
   */
  lemma NoTextAborts(text: string)
    ensures !Parse(text).Aborted?
    ensures Parse(text).Done? ==>
              var m := Parse(text).m;
              |m.b.stack| == 1 && (m.b.stack[0].Array? || m.b.stack[0].Object?) && m.b.keys == [] && m.p.stack == []
  {
    FeedAllIsSafe(Running(Initial()), text);
  }
}

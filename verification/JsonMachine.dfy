/** The parser as the object it is: fields changed in place, one character at a time. */
module JsonMachine {
  import opened Helpers
  import opened JsonTable
  import opened JsonValue
  import opened JsonParser
  import opened JsonSafety
  import opened JsonStrings

  datatype Verdict = Fresh | Finish | Failed

  class JSONToVariant {
    // The automaton.
    var state: State
    var beforeComment: State
    var kind: Type
    var escaped: bool
    var comment: bool
    var hi: nat
    var stack: seq<Mode>
    var buf: string
    // The driver.
    var depth: int
    var verdict: Verdict
    // The tree builder.
    var values: seq<Value>
    var keys: seq<string>

    function P(): Parser
      reads this
    {
      Parser(state, beforeComment, kind, escaped, comment, hi, stack, buf)
    }

    function B(): Builder
      reads this
    {
      Builder(values, keys)
    }

    function Abs(): Core
      reads this
    {
      Core(P(), depth, B())
    }

    function Current(): Status
      reads this
    {
      match verdict
      case Fresh => Running(Abs())
      case Finish => Done(Abs())
      case Failed => Error
    }

    constructor ()
      ensures Current() == Running(Initial())
    {
      state, beforeComment, kind, escaped, comment := GO, GO, NoType, false, false;
      hi, stack, buf := 0, [AtDone], "";
      depth, verdict, values, keys := 0, Fresh, [], [];
    }

    // ---- buffer and stacks

    method PopBack()
      requires buf != ""
      modifies this`buf
      ensures Go(P()) == PopChar(old(P()))
    {
      buf := buf[..|buf| - 1];
    }

    method Pop(mode: Mode) returns (ok: bool)
      modifies this`stack
      ensures if ok then Go(P()) == PopMode(old(P()), mode) else PopMode(old(P()), mode).Reject? && stack == old(stack)
    {
      if stack == [] || stack[|stack| - 1] != mode {
        return false;
      }
      stack := stack[..|stack| - 1];
      return true;
    }

    // ---- the tree builder

    method Add(v: Value) returns (ok: bool)
      modifies this`values, this`keys
      ensures if ok then AddValue(old(B()), v) == Some(B()) else AddValue(old(B()), v) == None && B() == old(B())
    {
      if values != [] && values[|values| - 1].Object? {
        if keys == [] {
          return false;
        }
        var k := keys[|keys| - 1];
        var top := values[|values| - 1];
        var prior := Find(top.members, k);
        if prior.Some? && !prior.value.Null? {
          return false;
        }
        values := values[|values| - 1 := Object(Put(top.members, k, v))];
        keys := keys[..|keys| - 1];
      } else if values != [] && values[|values| - 1].Array? {
        values := values[|values| - 1 := Array(values[|values| - 1].elems + [v])];
      } else {
        values := values + [v];
      }
      return true;
    }

    method CloseTop(isArray: bool) returns (ok: bool)
      requires values != []
      modifies this`values, this`keys
      ensures var r := CloseContainer(old(B()), isArray); ok == r.Some? && (ok ==> B() == r.value)
    {
      var v := values[|values| - 1];
      if isArray != v.Array? || (!isArray && !v.Object?) {
        return false;
      }
      values := values[..|values| - 1];
      ok := Add(v);
    }

    method AddKeyText(k: string) returns (ok: bool)
      modifies this`keys
      ensures var r := AddKey(old(B()), k); ok == r.Some? && (ok ==> B() == r.value)
    {
      if values == [] || !values[|values| - 1].Object? {
        return false;
      }
      keys := keys + [k];
      return true;
    }

    /** What a step that may refuse makes of the object. */
    ghost predicate Became(o: Outcome<Core>, ok: bool)
      reads this
    {
      !o.Fault? && ok == o.Go? && (ok ==> Abs() == o.v)
    }

    method ParseBuffer() returns (ok: bool)
      modifies this`buf, this`values, this`keys
      ensures Became(Flush(old(Abs())), ok)
    {
      if kind != NoType {
        ok := Add(PendingValue(kind, buf));
        if !ok {
          return;
        }
      }
      buf := "";
      return true;
    }

    /** Drop the character just stored and report what is pending. */
    method PopAndFlush() returns (ok: bool)
      requires buf != ""
      modifies this`buf, this`values, this`keys
      ensures Became(Flush(old(Abs()).(p := old(P()).(buf := old(buf)[..|old(buf)| - 1]))), ok)
    {
      PopBack();
      ok := ParseBuffer();
    }

    // ---- Unicode

    /** The loop over the four digits. */
    method ReadUnit() returns (u: nat)
      requires |buf| >= 4 && forall i | |buf| - 4 <= i < |buf| :: HexValue(buf[i]) < 16
      ensures var n := |buf|;
              u == HexValue(buf[n - 4]) * 0x1000 + HexValue(buf[n - 3]) * 0x100
                   + HexValue(buf[n - 2]) * 0x10 + HexValue(buf[n - 1])
      ensures HexText(buf[|buf| - 4..]) ==> u == CodeUnit(buf[|buf| - 4..])
    {
      u := 0;
      var i := 0;
      ghost var n := |buf|;
      while i < 4
        invariant i <= 4
        invariant i == 0 ==> u == 0
        invariant i == 1 ==> u == HexValue(buf[n - 4]) * 0x1000
        invariant i == 2 ==> u == HexValue(buf[n - 4]) * 0x1000 + HexValue(buf[n - 3]) * 0x100
        invariant i == 3 ==>
                    u == HexValue(buf[n - 4]) * 0x1000 + HexValue(buf[n - 3]) * 0x100 + HexValue(buf[n - 2]) * 0x10
        invariant i == 4 ==>
                    u == HexValue(buf[n - 4]) * 0x1000 + HexValue(buf[n - 3]) * 0x100
                         + HexValue(buf[n - 2]) * 0x10 + HexValue(buf[n - 1])
      {
        var x := HexValue(buf[|buf| - 4 + i]);
        u := u + x * (if i == 0 then 0x1000 else if i == 1 then 0x100 else if i == 2 then 0x10 else 1);
        i := i + 1;
      }
    }

    /** The lead byte, then one continuation byte for each remaining six bits. */
    method PutUtf8(u: nat, trail: nat)
      requires trail <= 3
      requires u < if trail == 0 then 0x80 else if trail == 1 then 0x800 else if trail == 2 then 0x10000 else 0x200000
      modifies this`buf
      ensures buf == old(buf) + Utf8(u, trail)
    {
      if trail == 0 {
        buf := buf + [u as char];
      } else if trail == 1 {
        buf := buf + [(0xC0 + u / 0x40) as char];
      } else if trail == 2 {
        buf := buf + [(0xE0 + u / 0x1000) as char];
      } else {
        buf := buf + [(0xF0 + u / 0x40000) as char];
      }
      ghost var front := old(buf);
      var i := trail;
      while i > 0
        invariant 0 <= i <= trail && |Utf8(u, trail)| == trail + 1
        invariant buf == front + Utf8(u, trail)[..trail + 1 - i]
      {
        i := i - 1;
        ghost var before := buf;
        buf := buf + [(0x80 + u / (if i == 2 then 0x1000 else if i == 1 then 0x40 else 1) % 0x40) as char];
        ghost var whole := Utf8(u, trail);
        assert whole[..trail + 1 - i] == whole[..trail - i] + [whole[trail - i]];
        assert before + [whole[trail - i]] == front + (whole[..trail - i] + [whole[trail - i]]);
      }
      assert Utf8(u, trail)[..trail + 1] == Utf8(u, trail);
    }

    method Decode() returns (ok: bool)
      requires !DecodeUnicode(P()).Fault?
      modifies this`buf, this`hi
      ensures ok == DecodeUnicode(old(P())).Go?
      ensures ok ==> P() == DecodeUnicode(old(P())).v
    {
      var u := ReadUnit();
      buf := buf[..|buf| - 6];
      if hi != 0 {
        if !LowSurrogate(u) {
          return false;
        }
        PutUtf8(FromPair(hi, u), 3);
        hi := 0;
      } else if u < 0x80 {
        PutUtf8(u, 0);
      } else if u < 0x800 {
        PutUtf8(u, 1);
      } else if HighSurrogate(u) {
        hi := u;
      } else if LowSurrogate(u) {
        return false;
      } else {
        PutUtf8(u, 2);
      }
      return true;
    }

    // ---- one character

    method StoreEscaped(c: char) returns (ok: bool)
      requires escaped && buf != ""
      modifies this`buf, this`escaped
      ensures var r := AddChar(old(P()), c, ETC); !r.Fault? && ok == r.Go? && (ok ==> P() == r.v)
    {
      escaped := false;
      PopBack();
      var text := Unescaped(c);
      if text == None {
        return false;
      }
      buf := buf + text.value;
      return true;
    }

    method Store(c: char, k: Class) returns (ok: bool)
      requires escaped ==> buf != ""
      modifies this`buf, this`escaped
      ensures var r := AddChar(old(P()), c, k); !r.Fault? && ok == r.Go? && (ok ==> P() == r.v)
    {
      if escaped {
        ok := StoreEscaped(c);
        return;
      }
      if !comment && (kind != NoType || !(k.SPACE? || k.WHITE?)) {
        buf := buf + [c];
      }
      return true;
    }

    method CommentOpens() returns (ok: bool)
      requires !OnCommentBegin(Abs()).Fault?
      modifies this
      ensures verdict == old(verdict) && Became(OnCommentBegin(old(Abs())), ok)
    {
      ok := PopAndFlush();
      if ok {
        CommentStarts();
      }
    }

    method CommentStarts()
      requires EnterComment(Abs()).Go?
      modifies this`beforeComment, this`kind, this`state, this`comment
      ensures Go(Abs()) == EnterComment(old(Abs()))
    {
      assert kind != StringType;
      var top := stack[|stack| - 1];
      beforeComment := if (top.InArray? || top.InObject?) && state != VA && state != AR then OK else state;
      kind, state, comment := NoType, C1, true;
    }

    method Ends(mode: Mode) returns (ok: bool)
      requires !OnEnd(Abs(), mode).Fault?
      modifies this
      ensures verdict == old(verdict) && Became(OnEnd(old(Abs()), mode), ok)
    {
      ok := PopAndFlush();
      if ok {
        ok := CloseAndPop(mode);
      }
    }

    method CloseAndPop(mode: Mode) returns (ok: bool)
      requires !HandOver(Abs(), mode).Fault?
      modifies this
      ensures verdict == old(verdict) && Became(HandOver(old(Abs()), mode), ok)
    {
      depth := depth - 1;
      ok := CloseTop(mode.InArray?);
      if !ok {
        return;
      }
      ok := Pop(mode);
      kind, state := NoType, OK;
    }

    method EmptyObjectEnds() returns (ok: bool)
      requires !OnEmptyObject(Abs()).Fault?
      modifies this
      ensures verdict == old(verdict) && Became(OnEmptyObject(old(Abs())), ok)
    {
      buf := "";
      depth := depth - 1;
      ok := CloseTop(false);
      if !ok {
        return;
      }
      ok := Pop(AtKey);
      state := OK;
    }

    method Begins(v: Value, mode: Mode, s: State)
      requires OnBegin(Abs(), v, mode, s).Go?
      modifies this
      ensures verdict == old(verdict) && Go(Abs()) == OnBegin(old(Abs()), v, mode, s)
    {
      PopBack();
      values := values + [v];
      depth := depth + 1;
      stack := stack + [mode];
      assert kind == NoType;
      state := s;
    }

    method StringEnds() returns (ok: bool)
      requires !OnStringEnd(Abs()).Fault?
      modifies this
      ensures verdict == old(verdict) && Became(OnStringEnd(old(Abs())), ok)
    {
      PopBack();
      match stack[|stack| - 1]
      case AtKey =>
        assert kind == StringType;
        kind, state := NoType, CO;
        ok := AddKeyText(CString(buf));
        buf := "";
      case AtDone =>
        return false;
      case _ =>
        assert kind == StringType;
        ok := ParseBuffer();
        kind, state := NoType, OK;
    }

    method CommaSeen() returns (ok: bool)
      requires !OnComma(Abs()).Fault?
      modifies this
      ensures verdict == old(verdict) && Became(OnComma(old(Abs())), ok)
    {
      ok := PopAndFlush();
      if !ok {
        return;
      }
      match stack[|stack| - 1]
      case InObject =>
        assert kind != StringType;
        ok := Pop(Mode.InObject);
        stack := stack + [AtKey];
        kind, state := NoType, KE;
      case InArray =>
        assert kind != StringType;
        kind, state := NoType, VA;
      case _ =>
        return false;
    }

    method ColonSeen() returns (ok: bool)
      requires !OnColon(Abs()).Fault?
      modifies this
      ensures verdict == old(verdict) && Became(OnColon(old(Abs())), ok)
    {
      PopBack();
      ok := Pop(AtKey);
      if !ok {
        return;
      }
      stack := stack + [Mode.InObject];
      assert kind == NoType;
      state := VA;
    }

    method UnicodeEnds() returns (ok: bool)
      requires !OnUnicode(Abs()).Fault?
      modifies this
      ensures verdict == old(verdict) && Became(OnUnicode(old(Abs())), ok)
    {
      ok := Decode();
      if !ok {
        return;
      }
      state := if hi != 0 then D1 else ST;
    }

    /** A string or a keyword begins where no scalar is pending. */
    method StartWord(t: Type, s: State)
      requires kind == NoType
      modifies this`kind, this`state
      ensures kind == t && state == s
    {
      kind, state := t, s;
    }

    method Perform(e: Entry) returns (ok: bool)
      requires !Act(Abs(), e).Fault?
      modifies this
      ensures verdict == old(verdict) && Became(Act(old(Abs()), e), ok)
    {
      ok := true;
      match e
      case To(s) => state := s;
      case Bad => ok := false;
      case Unicode => ok := UnicodeEnds();
      case Escape => escaped, state := true, ES;
      case IntByMinus => kind, state := IntegerType, MI;
      case IntByZero => kind, state := IntegerType, ZE;
      case IntByDigit => kind, state := IntegerType, IT;
      case FloatByExp =>
        assert kind != FalseType && kind != TrueType && kind != NullType && kind != StringType;
        kind, state := FloatType, E1;
      case FloatByPoint =>
        assert kind != FalseType && kind != TrueType && kind != NullType && kind != StringType;
        kind, state := FloatType, FX;
      case StringBegin => StartWord(StringType, ST); buf := "";
      case Null => StartWord(NullType, N1);
      case False => StartWord(FalseType, F1);
      case True => StartWord(TrueType, T1);
      case CommentEnd =>
        assert buf == "" && kind == NoType;
        comment, state := false, beforeComment;
      case CommentBegin => ok := CommentOpens();
      case EmptyObject => ok := EmptyObjectEnds();
      case ObjectEnd => ok := Ends(Mode.InObject);
      case ArrayEnd => ok := Ends(Mode.InArray);
      case ObjectBegin => Begins(Object([]), AtKey, OB);
      case ArrayBegin => Begins(Array([]), Mode.InArray, AR);
      case StringEnd => ok := StringEnds();
      case Comma => ok := CommaSeen();
      case Colon => ok := ColonSeen();
    }

    method Char(c: char) returns (ok: bool)
      requires Ok(Abs())
      modifies this
      ensures verdict == old(verdict) && Became(ParserChar(old(Abs()), c), ok)
    {
      StepIsSafe(Abs(), c);
      var k := ClassOf(c);
      if k == None {
        return false;
      }
      ok := Store(c, k.value);
      if !ok {
        return;
      }
      ok := Perform(Next(state, k.value));
    }

    // ---- the driver

    /** One character of input: the object's status becomes what `Feed` says. */
    method Parse(c: char) returns (ok: bool)
      requires Sound(Current())
      modifies this
      ensures Current() == Feed(old(Current()), c) && Sound(Current())
      ensures ok == (old(Current()).Running? && !Current().Error?)
    {
      FeedIsSafe(Current(), c);
      if verdict != Fresh {
        return false;
      }
      ok := Char(c);
      if !ok {
        verdict := Failed;
        return;
      }
      Conclude();
    }

    /** The driver's question whether the document is complete. */
    method Conclude()
      requires verdict == Fresh
      modifies this`stack, this`verdict
      ensures var m := old(Abs());
              Current() == if Complete(m) then Done(m.(p := m.p.(stack := m.p.stack[..|m.p.stack| - 1])))
                           else Running(m)
    {
      if depth == 0 && state == OK {
        var popped := Pop(AtDone);
        if popped {
          verdict := Finish;
        }
      }
    }

    /** A block of text; `used` counts the accepted characters. */
    method ParseText(text: string) returns (used: nat)
      requires Sound(Current())
      modifies this
      ensures Current() == FeedAll(old(Current()), text)
      ensures used <= |text| && Sound(Current())
      ensures Current().Running? ==> used == |text|
      ensures old(Current()).Running? ==>
                var s := FeedAll(old(Current()), text[..used]);
                !s.Error? && (used < |text| ==> s.Done? || Feed(s, text[used]).Error?)
    {
      ghost var s0 := Current();
      used := 0;
      assert text[..0] == "";
      while used < |text|
        invariant used <= |text|
        invariant Sound(Current()) && Current() == FeedAll(s0, text[..used])
        invariant s0.Running? ==> !Current().Error?
      {
        var ok := Parse(text[used]);
        if !ok {
          RestIgnored(s0, text, used);
          return;
        }
        SnocFeed(s0, text, used);
        used := used + 1;
      }
      assert text[..used] == text;
    }
  }

  /** Read one document; `None` is the failed assertion that the parser is done. */
  method VariantFromJSON(json: string) returns (tree: Option<Value>)
    ensures tree == Tree(Parse(json))
    ensures tree.Some? ==> tree.value.Array? || tree.value.Object?
  {
    var parser := new JSONToVariant();
    var _ := parser.ParseText(json);
    DoneTree(parser.Current());
    if parser.verdict == Finish {
      tree := Some(parser.values[|parser.values| - 1]);
    } else {
      tree := None;
    }
  }

  lemma DoneTree(s: Status)
    requires Sound(s)
    ensures Tree(s).Some? <==> s.Done?
    ensures Tree(s).Some? ==> |s.m.b.stack| == 1 && (Tree(s).value.Array? || Tree(s).value.Object?)
  {
  }

  lemma SnocFeed(s: Status, text: string, i: nat)
    requires i < |text|
    ensures FeedAll(s, text[..i + 1]) == Feed(FeedAll(s, text[..i]), text[i])
  {
    assert text[..i + 1] == text[..i] + [text[i]];
    FeedConcat(s, text[..i], [text[i]]);
    assert [text[i]][1..] == "";
  }

  /** After the character that stops the parser, the rest of the text makes no difference. */
  lemma RestIgnored(s: Status, text: string, i: nat)
    requires i < |text| && !Feed(FeedAll(s, text[..i]), text[i]).Running?
    ensures FeedAll(s, text) == Feed(FeedAll(s, text[..i]), text[i])
  {
    SnocFeed(s, text, i);
    assert text == text[..i + 1] + text[i + 1..];
    FeedConcat(s, text[..i + 1], text[i + 1..]);
    Stopped(FeedAll(s, text[..i + 1]), text[i + 1..]);
  }
}

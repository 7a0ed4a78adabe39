/** The character-by-character JSON parser, its Unicode decoder, and the driver around it. */
module JsonParser {
  import opened Helpers
  import opened JsonTable
  import opened JsonValue

  datatype Mode = InArray | AtDone | AtKey | InObject

  datatype Type = NoType | NullType | FalseType | TrueType | FloatType | IntegerType | StringType

  /** `hi` is the pending high surrogate, 0 when there is none. */
  datatype Parser = Parser(
    state: State, beforeComment: State, kind: Type, escaped: bool, comment: bool,
    hi: nat, stack: seq<Mode>, buf: string)

  datatype Core = Core(p: Parser, depth: int, b: Builder)

  /** A C assertion that would abort is `Fault`; a refused character is `Reject`. */
  datatype Outcome<+T> = Go(v: T) | Reject | Fault {
    predicate IsFailure() {
      !Go?
    }

    function PropagateFailure<U>(): Outcome<U>
      requires !Go?
    {
      if Reject? then Reject else Fault
    }

    function Extract(): T
      requires Go?
    {
      v
    }
  }

  function Check(ok: bool): Outcome<()> {
    if ok then Go(()) else Fault
  }

  function Need<T>(o: Option<T>): Outcome<T> {
    if o.Some? then Go(o.value) else Reject
  }

  function Initial(): Core {
    Core(Parser(GO, GO, NoType, false, false, 0, [AtDone], ""), 0, Builder([], []))
  }

  // ---- buffer and stack helpers

  function PopChar(p: Parser): Outcome<Parser> {
    if p.buf == "" then Fault else Go(p.(buf := p.buf[..|p.buf| - 1]))
  }

  function PopMode(p: Parser, m: Mode): Outcome<Parser> {
    if p.stack == [] || p.stack[|p.stack| - 1] != m then Reject
    else Go(p.(stack := p.stack[..|p.stack| - 1]))
  }

  function PushMode(p: Parser, m: Mode): Parser {
    p.(stack := p.stack + [m])
  }

  function TopMode(p: Parser): Option<Mode> {
    if p.stack == [] then None else Some(p.stack[|p.stack| - 1])
  }

  // ---- scalars

  /** The text a callback sees: the buffer up to the first NUL. */
  function CString(s: string): string {
    if s == "" || s[0] == '\0' then "" else [s[0]] + CString(s[1..])
  }

  function DigitsValue(s: string, acc: nat): nat {
    if s == "" || !('0' <= s[0] <= '9') then acc
    else DigitsValue(s[1..], acc * 10 + (s[0] as int - '0' as int))
  }

  /** The integer at the front of the text, as `sscanf` reads it, without overflow. */
  function ScanInteger(s: string): int {
    if s != "" && s[0] == '-' then 0 - DigitsValue(s[1..], 0) else DigitsValue(s, 0)
  }

  /** The number at the front of the text: white space may follow it in the buffer. */
  function UpToWhite(s: string): string {
    if s == "" || White(s[0]) then "" else [s[0]] + UpToWhite(s[1..])
  }

  function PendingValue(t: Type, buf: string): Value
    requires !t.NoType?
  {
    match t
    case NullType => Value.Null
    case FalseType => Bool(false)
    case TrueType => Bool(true)
    case FloatType => Value.Float(UpToWhite(buf))
    case IntegerType => Number(ScanInteger(buf))
    case StringType => Str(CString(buf))
  }

  /** Report a pending scalar, if there is one, and clear the buffer. */
  function Flush(m: Core): Outcome<Core> {
    if m.p.kind.NoType? then Go(m.(p := m.p.(buf := "")))
    else
      var b :- Need(AddValue(m.b, PendingValue(m.p.kind, m.p.buf)));
      Go(m.(p := m.p.(buf := ""), b := b))
  }

  // ---- Unicode escapes

  function HexValue(c: char): nat {
    if c >= 'a' then c as int - 'a' as int + 10
    else if c >= 'A' then c as int - 'A' as int + 10
    else (c as int) % 16
  }

  predicate HighSurrogate(u: nat) {
    0xD800 <= u < 0xDC00
  }

  predicate LowSurrogate(u: nat) {
    0xDC00 <= u < 0xE000
  }

  function FromPair(hi: nat, lo: nat): nat {
    (hi % 0x400) * 0x400 + lo % 0x400 + 0x10000
  }

  /** `u` in the encoding with `trail` continuation bytes; shifts and masks as quotients. */
  function Utf8(u: nat, trail: nat): string
    requires trail <= 3
    requires u < if trail == 0 then 0x80 else if trail == 1 then 0x800 else if trail == 2 then 0x10000 else 0x200000
  {
    if trail == 0 then [u as char]
    else if trail == 1 then [(0xC0 + u / 0x40) as char, (0x80 + u % 0x40) as char]
    else if trail == 2 then [(0xE0 + u / 0x1000) as char, (0x80 + u / 0x40 % 0x40) as char, (0x80 + u % 0x40) as char]
    else [(0xF0 + u / 0x40000) as char, (0x80 + u / 0x1000 % 0x40) as char,
          (0x80 + u / 0x40 % 0x40) as char, (0x80 + u % 0x40) as char]
  }

  /** Replace the six escape characters at the end of the buffer by what they encode. */
  function DecodeUnicode(p: Parser): Outcome<Parser> {
    var n := |p.buf|;
    var _ :- Check(n >= 6);
    var a, b, c, d := HexValue(p.buf[n - 4]), HexValue(p.buf[n - 3]), HexValue(p.buf[n - 2]), HexValue(p.buf[n - 1]);
    var _ :- Check(a < 16 && b < 16 && c < 16 && d < 16);
    var u := a * 0x1000 + b * 0x100 + c * 0x10 + d;
    var front := p.buf[..n - 6];
    if p.hi != 0 then
      if LowSurrogate(u) then Go(p.(hi := 0, buf := front + Utf8(FromPair(p.hi, u), 3)))
      else Reject
    else if u < 0x80 then Go(p.(buf := front + Utf8(u, 0)))
    else if u < 0x800 then Go(p.(buf := front + Utf8(u, 1)))
    else if HighSurrogate(u) then Go(p.(hi := u, buf := front))
    else if LowSurrogate(u) then Reject
    else Go(p.(buf := front + Utf8(u, 2)))
  }

  // ---- one character

  function Unescaped(c: char): Option<string> {
    match c
    case 'b' => Some("\U{0008}")
    case 'f' => Some("\U{000C}")
    case 'n' => Some("\n")
    case 'r' => Some("\r")
    case 't' => Some("\t")
    case '"' => Some("\"")
    case '\\' => Some("\\")
    case '/' => Some("/")
    case 'u' => Some("\\u")
    case _ => None
  }

  /** Put the character in the parse buffer, resolving a one-letter escape. */
  function AddChar(p: Parser, c: char, k: Class): Outcome<Parser> {
    if p.escaped then
      var q :- PopChar(p.(escaped := false));
      var text :- Need(Unescaped(c));
      Go(q.(buf := q.buf + text))
    else if !p.comment && (!p.kind.NoType? || !(k.SPACE? || k.WHITE?)) then Go(p.(buf := p.buf + [c]))
    else Go(p)
  }

  function StartScalar(p: Parser, t: Type, s: State): Outcome<Parser> {
    var _ :- Check(p.kind.NoType?);
    Go(p.(kind := t, state := s))
  }

  function ToFloat(p: Parser, s: State): Outcome<Parser> {
    var _ :- Check(!p.kind.FalseType? && !p.kind.TrueType? && !p.kind.NullType? && !p.kind.StringType?);
    Go(p.(kind := FloatType, state := s))
  }

  function OnCommentBegin(m: Core): Outcome<Core> {
    var p :- PopChar(m.p);
    var m1 :- Flush(m.(p := p));
    EnterComment(m1)
  }

  function EnterComment(m: Core): Outcome<Core> {
    var _ :- Check(!m.p.kind.StringType?);
    var _ :- Check(m.p.stack != []);
    var top := m.p.stack[|m.p.stack| - 1];
    var back := if (top.InArray? || top.InObject?) && m.p.state != VA && m.p.state != AR then OK else m.p.state;
    Go(m.(p := m.p.(beforeComment := back, kind := NoType, state := C1, comment := true)))
  }

  /** Close a container: flush the last scalar, tell the builder, pop the mode. */
  function OnEnd(m: Core, mode: Mode): Outcome<Core> {
    var p :- PopChar(m.p);
    var m1 :- Flush(m.(p := p));
    HandOver(m1, mode)
  }

  function HandOver(m: Core, mode: Mode): Outcome<Core> {
    var _ :- Check(m.b.stack != []);
    var b :- Need(CloseContainer(m.b, mode.InArray?));
    var p :- PopMode(m.p, mode);
    Go(Core(p.(kind := NoType, state := OK), m.depth - 1, b))
  }

  function OnEmptyObject(m: Core): Outcome<Core> {
    var _ :- Check(m.b.stack != []);
    var b :- Need(CloseContainer(m.b, false));
    var p :- PopMode(m.p.(buf := ""), AtKey);
    Go(Core(p.(state := OK), m.depth - 1, b))
  }

  function OnBegin(m: Core, v: Value, mode: Mode, s: State): Outcome<Core> {
    var p :- PopChar(m.p);
    var p1 := PushMode(p, mode);
    var _ :- Check(p1.kind.NoType?);
    Go(Core(p1.(state := s), m.depth + 1, m.b.Push(v)))
  }

  function OnStringEnd(m: Core): Outcome<Core> {
    var p :- PopChar(m.p);
    match TopMode(p)
    case Some(AtKey) =>
      var _ :- Check(p.kind.StringType?);
      var b :- Need(AddKey(m.b, CString(p.buf)));
      Go(m.(p := p.(kind := NoType, state := CO, buf := ""), b := b))
    case Some(AtDone) => Reject
    case None => Fault
    case _ =>
      var _ :- Check(p.kind.StringType?);
      var m1 :- Flush(m.(p := p));
      Go(m1.(p := m1.p.(kind := NoType, state := OK)))
  }

  function OnComma(m: Core): Outcome<Core> {
    var p :- PopChar(m.p);
    var m1 :- Flush(m.(p := p));
    match TopMode(m1.p)
    case Some(InObject) =>
      var p1 :- PopMode(m1.p, InObject);
      var _ :- Check(!p1.kind.StringType?);
      Go(m1.(p := PushMode(p1, AtKey).(kind := NoType, state := KE)))
    case Some(InArray) =>
      var _ :- Check(!m1.p.kind.StringType?);
      Go(m1.(p := m1.p.(kind := NoType, state := VA)))
    case None => Fault
    case _ => Reject
  }

  function OnColon(m: Core): Outcome<Core> {
    var p :- PopChar(m.p);
    var p1 :- PopMode(p, AtKey);
    var p2 := PushMode(p1, InObject);
    var _ :- Check(p2.kind.NoType?);
    Go(m.(p := p2.(state := VA)))
  }

  function OnUnicode(m: Core): Outcome<Core> {
    var p :- DecodeUnicode(m.p);
    Go(m.(p := p.(state := if p.hi != 0 then D1 else ST)))
  }

  function OnParser(m: Core, o: Outcome<Parser>): Outcome<Core> {
    var p :- o;
    Go(m.(p := p))
  }

  function Act(m: Core, e: Entry): Outcome<Core> {
    match e
    case To(s) => Go(m.(p := m.p.(state := s)))
    case Bad => Reject
    case Unicode => OnUnicode(m)
    case Escape => Go(m.(p := m.p.(escaped := true, state := ES)))
    case IntByMinus => Go(m.(p := m.p.(kind := IntegerType, state := MI)))
    case IntByZero => Go(m.(p := m.p.(kind := IntegerType, state := ZE)))
    case IntByDigit => Go(m.(p := m.p.(kind := IntegerType, state := IT)))
    case FloatByExp => OnParser(m, ToFloat(m.p, E1))
    case FloatByPoint => OnParser(m, ToFloat(m.p, FX))
    case StringBegin => OnParser(m, StartScalar(m.p.(buf := ""), StringType, ST))
    case Null => OnParser(m, StartScalar(m.p, NullType, N1))
    case False => OnParser(m, StartScalar(m.p, FalseType, F1))
    case True => OnParser(m, StartScalar(m.p, TrueType, T1))
    case CommentEnd =>
      var _ :- Check(m.p.buf == "" && m.p.kind.NoType?);
      Go(m.(p := m.p.(comment := false, state := m.p.beforeComment)))
    case CommentBegin => OnCommentBegin(m)
    case EmptyObject => OnEmptyObject(m)
    case ObjectEnd => OnEnd(m, InObject)
    case ArrayEnd => OnEnd(m, InArray)
    case ObjectBegin => OnBegin(m, Object([]), AtKey, OB)
    case ArrayBegin => OnBegin(m, Array([]), InArray, AR)
    case StringEnd => OnStringEnd(m)
    case Comma => OnComma(m)
    case Colon => OnColon(m)
  }

  function ParserChar(m: Core, c: char): Outcome<Core> {
    var k :- Need(ClassOf(c));
    var p :- AddChar(m.p, c, k);
    Act(m.(p := p), Next(p.state, k))
  }

  // ---- the driver

  datatype Status = Running(m: Core) | Done(m: Core) | Error | Aborted

  /** The document is complete: state OK and only the bottom mode left, which is popped. */
  predicate Complete(m: Core) {
    m.depth == 0 && m.p.state == OK && TopMode(m.p) == Some(AtDone)
  }

  /** Feed one character; once not running, characters are refused. */
  function Feed(s: Status, c: char): Status {
    if !s.Running? then s
    else
      match ParserChar(s.m, c)
      case Go(m) =>
        if Complete(m) then Done(m.(p := m.p.(stack := m.p.stack[..|m.p.stack| - 1]))) else Running(m)
      case Reject => Error
      case Fault => Aborted
  }

  function FeedAll(s: Status, text: string): Status
    decreases |text|
  {
    if text == "" then s else FeedAll(Feed(s, text[0]), text[1..])
  }

  function Parse(text: string): Status {
    FeedAll(Running(Initial()), text)
  }

  /** The tree handed over once the document is done. */
  function Tree(s: Status): Option<Value> {
    if s.Done? && s.m.b.stack != [] then Some(s.m.b.Top()) else None
  }

  lemma {:induction false} FeedConcat(s: Status, a: string, b: string)
    ensures FeedAll(s, a + b) == FeedAll(FeedAll(s, a), b)
    decreases |a|
  {
    if a == "" {
      assert a + b == b;
    } else {
      FeedConcat(Feed(s, a[0]), a[1..], b);
      assert (a + b)[1..] == a[1..] + b;
    }
  }

  /** Anything but Running is final. */
  lemma {:induction false} Stopped(s: Status, text: string)
    requires !s.Running?
    ensures FeedAll(s, text) == s
    decreases |text|
  {
    if text != "" {
      Stopped(Feed(s, text[0]), text[1..]);
    }
  }
}

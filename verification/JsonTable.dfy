/** Character classes, states and the transition table of the JSON automaton. */
module JsonTable {
  import opened Helpers

  datatype Class =
    | SPACE | WHITE | LCURB | RCURB | LSQRB | RSQRB | COLON | COMMA | QUOTE | BACKS | SLASH
    | PLUS | MINUS | POINT | ZERO | DIGIT
    | LOW_A | LOW_B | LOW_C | LOW_D | LOW_E | LOW_F | LOW_L | LOW_N | LOW_R | LOW_S | LOW_T | LOW_U
    | ABCDF | E | ETC | STAR

  datatype State =
    | GO | OK | OB | KE | CO | VA | AR | ST | ES | U1 | U2 | U3 | U4 | MI | ZE | IT | FR | E1 | E2 | E3
    | T1 | T2 | T3 | F1 | F2 | F3 | F4 | N1 | N2 | N3 | C1 | C2 | C3 | FX | D1 | D2

  /** A table entry: a next state, an action, or an error. */
  datatype Entry =
    | To(s: State) | Bad
    | CommentBegin | CommentEnd | False | True | Null | FloatByExp | FloatByPoint
    | StringBegin | IntByMinus | IntByZero | IntByDigit | Escape | Unicode
    | EmptyObject | ObjectEnd | ArrayEnd | ObjectBegin | ArrayBegin | StringEnd | Comma | Colon

  predicate White(c: char) {
    c == ' ' || c == '\t' || c == '\n' || c == '\r'
  }

  predicate Digit(c: char) {
    '0' <= c <= '9'
  }

  predicate HexChar(c: char) {
    '0' <= c <= '9' || 'a' <= c <= 'f' || 'A' <= c <= 'F'
  }

  /** Control characters other than tab, newline and return have no class. */
  function ClassOf(c: char): Option<Class> {
    if c >= 128 as char then Some(ETC)
    else if c == ' ' then Some(SPACE)
    else if c == '\t' || c == '\n' || c == '\r' then Some(WHITE)
    else if c < ' ' then None
    else if c == '{' then Some(LCURB)
    else if c == '}' then Some(RCURB)
    else if c == '[' then Some(LSQRB)
    else if c == ']' then Some(RSQRB)
    else if c == ':' then Some(COLON)
    else if c == ',' then Some(COMMA)
    else if c == '"' then Some(QUOTE)
    else if c == '\\' then Some(BACKS)
    else if c == '/' then Some(SLASH)
    else if c == '+' then Some(PLUS)
    else if c == '-' then Some(MINUS)
    else if c == '.' then Some(POINT)
    else if c == '*' then Some(STAR)
    else if c == '0' then Some(ZERO)
    else if '1' <= c <= '9' then Some(DIGIT)
    else if c == 'a' then Some(LOW_A)
    else if c == 'b' then Some(LOW_B)
    else if c == 'c' then Some(LOW_C)
    else if c == 'd' then Some(LOW_D)
    else if c == 'e' then Some(LOW_E)
    else if c == 'f' then Some(LOW_F)
    else if c == 'l' then Some(LOW_L)
    else if c == 'n' then Some(LOW_N)
    else if c == 'r' then Some(LOW_R)
    else if c == 's' then Some(LOW_S)
    else if c == 't' then Some(LOW_T)
    else if c == 'u' then Some(LOW_U)
    else if c == 'E' then Some(E)
    else if 'A' <= c <= 'F' then Some(ABCDF)
    else Some(ETC)
  }

  predicate IsHex(k: Class) {
    k.ZERO? || k.DIGIT? || k.LOW_A? || k.LOW_B? || k.LOW_C? || k.LOW_D? || k.LOW_E? || k.LOW_F? || k.ABCDF? || k.E?
  }

  function OnHex(k: Class, e: Entry): Entry {
    if IsHex(k) then e else Bad
  }

  /** What may follow a complete value. */
  function AfterValue(k: Class): Entry {
    match k
    case SPACE => To(OK)
    case WHITE => To(OK)
    case RCURB => ObjectEnd
    case RSQRB => ArrayEnd
    case COMMA => Comma
    case _ => Bad
  }

  /** What may start a value, with `ws` the state white space leads to. */
  function ValueStart(k: Class, ws: State): Entry {
    match k
    case SPACE => To(ws)
    case WHITE => To(ws)
    case LCURB => ObjectBegin
    case LSQRB => ArrayBegin
    case QUOTE => StringBegin
    case SLASH => CommentBegin
    case MINUS => IntByMinus
    case ZERO => IntByZero
    case DIGIT => IntByDigit
    case LOW_F => False
    case LOW_N => Null
    case LOW_T => True
    case _ => Bad
  }

  /** White space and comments, with one class leading elsewhere. */
  function Expecting(k: Class, ws: State, want: Class, e: Entry): Entry {
    if k.SPACE? || k.WHITE? then To(ws)
    else if k.SLASH? then CommentBegin
    else if k == want then e
    else Bad
  }

  function Only(k: Class, want: Class, e: Entry): Entry {
    if k == want then e else Bad
  }

  predicate IsDigit(k: Class) {
    k.ZERO? || k.DIGIT?
  }

  predicate IsExp(k: Class) {
    k.LOW_E? || k.E?
  }

  predicate InStringState(s: State) {
    s.ST? || s.ES? || s.U1? || s.U2? || s.U3? || s.U4? || s.D1? || s.D2?
  }

  predicate InComment(s: State) {
    s.C1? || s.C2? || s.C3?
  }

  predicate InInteger(s: State) {
    s.MI? || s.ZE? || s.IT?
  }

  predicate InFloat(s: State) {
    s.FX? || s.FR? || s.E1? || s.E2? || s.E3?
  }

  predicate InTrue(s: State) {
    s.T1? || s.T2? || s.T3?
  }

  predicate InFalse(s: State) {
    s.F1? || s.F2? || s.F3? || s.F4?
  }

  predicate InNull(s: State) {
    s.N1? || s.N2? || s.N3?
  }

  predicate InNumber(s: State) {
    InInteger(s) || InFloat(s)
  }

  predicate InWord(s: State) {
    InTrue(s) || InFalse(s) || InNull(s)
  }

  /** Between tokens and after values. */
  function TokenNext(s: State, k: Class): Entry {
    match s
    case GO => if k.LCURB? then ObjectBegin else Expecting(k, GO, LSQRB, ArrayBegin)
    case OK => if k.SLASH? then CommentBegin else AfterValue(k)
    case OB => if k.RCURB? then EmptyObject else Expecting(k, OB, QUOTE, StringBegin)
    case KE => Expecting(k, KE, QUOTE, StringBegin)
    case CO => Expecting(k, CO, COLON, Colon)
    case VA => ValueStart(k, VA)
    case AR => if k.RSQRB? then ArrayEnd else ValueStart(k, AR)
    case _ => Bad
  }

  /** Inside strings. */
  function StringNext(s: State, k: Class): Entry {
    match s
    case ST => if k.QUOTE? then StringEnd else if k.BACKS? then Escape else if k.WHITE? then Bad else To(ST)
    case ES =>
      if k.LOW_U? then To(U1)
      else if k.QUOTE? || k.BACKS? || k.SLASH? || k.LOW_B? || k.LOW_F? || k.LOW_N? || k.LOW_R? || k.LOW_T? then To(ST)
      else Bad
    case U1 => OnHex(k, To(U2))
    case U2 => OnHex(k, To(U3))
    case U3 => OnHex(k, To(U4))
    case U4 => OnHex(k, Unicode)
    case D1 => Only(k, BACKS, To(D2))
    case D2 => Only(k, LOW_U, To(U1))
    case _ => Bad
  }

  /** Inside numbers. */
  function NumberNext(s: State, k: Class): Entry {
    match s
    case MI => if k.ZERO? then To(ZE) else Only(k, DIGIT, To(IT))
    case ZE => if k.SLASH? then CommentBegin else if k.POINT? then FloatByPoint else AfterValue(k)
    case IT =>
      if k.SLASH? then CommentBegin
      else if k.POINT? then FloatByPoint
      else if IsDigit(k) then To(IT)
      else if IsExp(k) then FloatByExp
      else AfterValue(k)
    case FR =>
      if k.SLASH? then CommentBegin
      else if IsDigit(k) then To(FR)
      else if IsExp(k) then To(E1)
      else AfterValue(k)
    case E1 => if k.PLUS? || k.MINUS? then To(E2) else if IsDigit(k) then To(E3) else Bad
    case E2 => if IsDigit(k) then To(E3) else Bad
    case E3 => if IsDigit(k) then To(E3) else AfterValue(k)
    case FX => if IsDigit(k) then To(FR) else if IsExp(k) then To(E1) else AfterValue(k)
    case _ => Bad
  }

  /** Inside keywords. */
  function WordNext(s: State, k: Class): Entry {
    match s
    case T1 => Only(k, LOW_R, To(T2))
    case T2 => Only(k, LOW_U, To(T3))
    case T3 => if k.SLASH? then CommentBegin else Only(k, LOW_E, To(OK))
    case F1 => Only(k, LOW_A, To(F2))
    case F2 => Only(k, LOW_L, To(F3))
    case F3 => Only(k, LOW_S, To(F4))
    case F4 => if k.SLASH? then CommentBegin else Only(k, LOW_E, To(OK))
    case N1 => Only(k, LOW_U, To(N2))
    case N2 => Only(k, LOW_L, To(N3))
    case N3 => if k.SLASH? then CommentBegin else Only(k, LOW_L, To(OK))
    case _ => Bad
  }

  /** Inside comments. */
  function CommentNext(s: State, k: Class): Entry {
    match s
    case C1 => Only(k, STAR, To(C2))
    case C2 => if k.STAR? then To(C3) else To(C2)
    case C3 => if k.SLASH? then CommentEnd else if k.STAR? then To(C3) else To(C2)
    case _ => Bad
  }

  /** The transition table, in five bands of rows. */
  function Next(s: State, k: Class): Entry {
    if InStringState(s) then StringNext(s, k)
    else if InNumber(s) then NumberNext(s, k)
    else if InWord(s) then WordNext(s, k)
    else if InComment(s) then CommentNext(s, k)
    else TokenNext(s, k)
  }
}

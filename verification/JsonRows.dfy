/** The transition table read on characters, row by row: what each state makes of every character. */
module JsonRows {
  import opened Helpers
  import opened JsonTable

  /** The entry a character leads to; one without a class is an error in every state. */
  function OnChar(s: State, c: char): Entry {
    if ClassOf(c).None? then Bad else Next(s, ClassOf(c).value)
  }

  // ---- between tokens

  lemma StartRow(c: char)
    ensures OnChar(GO, c) == if White(c) then To(GO)
                             else if c == '{' then ObjectBegin
                             else if c == '[' then ArrayBegin
                             else if c == '/' then CommentBegin
                             else Bad
  {
  }

  /** After a value. */
  lemma AfterValueRow(c: char)
    ensures OnChar(OK, c) == if White(c) then To(OK)
                             else if c == '}' then ObjectEnd
                             else if c == ']' then ArrayEnd
                             else if c == ',' then Comma
                             else if c == '/' then CommentBegin
                             else Bad
  {
  }

  /** At the start of an object. */
  lemma FirstKeyRow(c: char)
    ensures OnChar(OB, c) == if White(c) then To(OB)
                             else if c == '}' then EmptyObject
                             else if c == '"' then StringBegin
                             else if c == '/' then CommentBegin
                             else Bad
  {
  }

  /** Before any later key. */
  lemma KeyRow(c: char)
    ensures OnChar(KE, c) == if White(c) then To(KE)
                             else if c == '"' then StringBegin
                             else if c == '/' then CommentBegin
                             else Bad
  {
  }

  lemma ColonRow(c: char)
    ensures OnChar(CO, c) == if White(c) then To(CO)
                             else if c == ':' then Colon
                             else if c == '/' then CommentBegin
                             else Bad
  {
  }

  /** Where a value may start: after a colon or a comma, and at the start of an array, which may also end. */
  lemma ValueRows(c: char)
    ensures OnChar(VA, c) == if White(c) then To(VA) else StartOf(c)
    ensures OnChar(AR, c) == if White(c) then To(AR) else if c == ']' then ArrayEnd else StartOf(c)
  {
    ValueOnChar(c, VA);
    ValueOnChar(c, AR);
  }

  function StartOf(c: char): Entry {
    if c == '{' then ObjectBegin
    else if c == '[' then ArrayBegin
    else if c == '"' then StringBegin
    else if c == '/' then CommentBegin
    else if c == '-' then IntByMinus
    else if c == '0' then IntByZero
    else if Digit(c) then IntByDigit
    else if c == 'f' then False
    else if c == 'n' then Null
    else if c == 't' then True
    else Bad
  }

  lemma ValueOnChar(c: char, ws: State)
    ensures (if ClassOf(c).None? then Bad else ValueStart(ClassOf(c).value, ws)) ==
            if White(c) then To(ws) else StartOf(c)
    ensures ClassOf(c) == Some(RSQRB) <==> c == ']'
  {
    if Digit(c) || 'a' <= c <= 'z' {
      ValueOnLetter(c, ws);
    } else {
      ValueOnSign(c, ws);
    }
  }

  lemma ValueOnLetter(c: char, ws: State)
    requires Digit(c) || 'a' <= c <= 'z'
    ensures ClassOf(c).Some? && ValueStart(ClassOf(c).value, ws) == StartOf(c)
  {
  }

  lemma ValueOnSign(c: char, ws: State)
    requires !Digit(c) && !('a' <= c <= 'z')
    ensures (if ClassOf(c).None? then Bad else ValueStart(ClassOf(c).value, ws)) ==
            if White(c) then To(ws) else StartOf(c)
  {
  }

  // ---- strings

  /** Control characters, tabs and line ends among them, may not stand in a string. */
  lemma StringRow(c: char)
    ensures OnChar(ST, c) == if c < ' ' then Bad
                             else if c == '"' then StringEnd
                             else if c == '\\' then Escape
                             else To(ST)
  {
  }

  lemma EscapeRow(c: char)
    ensures OnChar(ES, c) == if c in "bfnrt\"\\/" then To(ST) else if c == 'u' then To(U1) else Bad
  {
  }

  lemma HexRows(c: char)
    ensures OnChar(U1, c) == if HexChar(c) then To(U2) else Bad
    ensures OnChar(U2, c) == if HexChar(c) then To(U3) else Bad
  {
  }

  lemma LastHexRows(c: char)
    ensures OnChar(U3, c) == if HexChar(c) then To(U4) else Bad
    ensures OnChar(U4, c) == if HexChar(c) then Unicode else Bad
  {
  }

  /** After a high surrogate. */
  lemma PairRows(c: char)
    ensures OnChar(D1, c) == if c == '\\' then To(D2) else Bad
    ensures OnChar(D2, c) == if c == 'u' then To(U1) else Bad
  {
  }

  // ---- numbers

  function EndOf(c: char): Entry {
    if White(c) then To(OK)
    else if c == '}' then ObjectEnd
    else if c == ']' then ArrayEnd
    else if c == ',' then Comma
    else Bad
  }

  /** No digit may follow a leading zero; nor, though the grammar of RFC 8259 has it, an exponent. */
  lemma LeadingRows(c: char)
    ensures OnChar(MI, c) == if c == '0' then To(ZE) else if Digit(c) then To(IT) else Bad
    ensures OnChar(ZE, c) == if c == '/' then CommentBegin else if c == '.' then FloatByPoint else EndOf(c)
  {
  }

  lemma IntegerRow(c: char)
    ensures OnChar(IT, c) == if Digit(c) then To(IT)
                             else if c == '.' then FloatByPoint
                             else if c == 'e' || c == 'E' then FloatByExp
                             else if c == '/' then CommentBegin
                             else EndOf(c)
  {
    if Digit(c) || c == '.' || c == '/' || c == 'e' || c == 'E' {
      IntegerGoesOn(c);
    } else {
      EndOnChar(c);
    }
  }

  lemma IntegerGoesOn(c: char)
    requires Digit(c) || c == '.' || c == '/' || c == 'e' || c == 'E'
    ensures ClassOf(c).Some? && Next(IT, ClassOf(c).value) ==
                                if Digit(c) then To(IT) else if c == '.' then FloatByPoint
                                else if c == '/' then CommentBegin else FloatByExp
  {
  }

  /** No digit, point, slash or letter e: the number ends here, or there is an error. */
  lemma EndOnChar(c: char)
    requires !Digit(c) && c != '.' && c != '/' && c != 'e' && c != 'E'
    ensures ClassOf(c).Some? ==>
              var k := ClassOf(c).value;
              AfterValue(k) == EndOf(c) && !IsDigit(k) && !IsExp(k) && !k.POINT? && !k.SLASH?
    ensures ClassOf(c).None? ==> EndOf(c) == Bad
  {
  }

  /** After the point, where no digit need follow, and after the first digit of a fraction. */
  lemma PointRow(c: char)
    ensures OnChar(FX, c) == if Digit(c) then To(FR) else if c == 'e' || c == 'E' then To(E1) else EndOf(c)
  {
  }

  lemma FractionRow(c: char)
    ensures OnChar(FR, c) == if Digit(c) then To(FR)
                             else if c == 'e' || c == 'E' then To(E1)
                             else if c == '/' then CommentBegin
                             else EndOf(c)
  {
  }

  lemma ExponentRows(c: char)
    ensures OnChar(E1, c) == if c == '+' || c == '-' then To(E2) else if Digit(c) then To(E3) else Bad
    ensures OnChar(E2, c) == if Digit(c) then To(E3) else Bad
  {
  }

  lemma ExponentDigitRow(c: char)
    ensures OnChar(E3, c) == if Digit(c) then To(E3) else EndOf(c)
  {
  }

  // ---- keywords

  lemma TrueRows(c: char)
    ensures OnChar(T1, c) == if c == 'r' then To(T2) else Bad
    ensures OnChar(T2, c) == if c == 'u' then To(T3) else Bad
  {
  }

  lemma FalseRows(c: char)
    ensures OnChar(F1, c) == if c == 'a' then To(F2) else Bad
    ensures OnChar(F2, c) == if c == 'l' then To(F3) else Bad
  {
  }

  lemma LastFalseRow(c: char)
    ensures OnChar(F3, c) == if c == 's' then To(F4) else Bad
  {
  }

  lemma NullRows(c: char)
    ensures OnChar(N1, c) == if c == 'u' then To(N2) else Bad
    ensures OnChar(N2, c) == if c == 'l' then To(N3) else Bad
  {
  }

  /** A comment may take the place of a keyword's last letter. */
  lemma LastLetterRows(c: char)
    ensures OnChar(F4, c) == OnChar(T3, c) == if c == 'e' then To(OK) else if c == '/' then CommentBegin else Bad
  {
  }

  lemma LastNullRow(c: char)
    ensures OnChar(N3, c) == if c == 'l' then To(OK) else if c == '/' then CommentBegin else Bad
  {
  }

  // ---- comments

  lemma CommentRows(c: char)
    ensures OnChar(C1, c) == if c == '*' then To(C2) else Bad
    ensures OnChar(C2, c) == if c == '*' then To(C3) else if c < ' ' && !White(c) then Bad else To(C2)
  {
  }

  lemma CommentStarRow(c: char)
    ensures OnChar(C3, c) == if c == '/' then CommentEnd
                             else if c == '*' then To(C3)
                             else if c < ' ' && !White(c) then Bad
                             else To(C2)
  {
  }
}

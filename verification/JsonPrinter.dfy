/** The JSON printer: compact, or pretty with one element per indented line. */
module JsonPrinter {
  import opened JsonTable
  import opened JsonValue
  import opened JsonParser

  // ---- strings

  function HexDigit(n: nat): char
    requires n < 16
  {
    if n < 10 then ('0' as int + n) as char else ('a' as int + n - 10) as char
  }

  function EscapeChar(c: char): string {
    if c == '\\' then "\\\\"
    else if c == '"' then "\\\""
    else if c == '/' then "\\/"
    else if c == '\U{0008}' then "\\b"
    else if c == '\U{000C}' then "\\f"
    else if c == '\n' then "\\n"
    else if c == '\r' then "\\r"
    else if c == '\t' then "\\t"
    else if c < ' ' then "\\u00" + [HexDigit(c as int / 16), HexDigit(c as int % 16)]
    else [c]
  }

  function EscapeText(s: string): string {
    if s == "" then "" else EscapeChar(s[0]) + EscapeText(s[1..])
  }

  /** A C string ends at its first NUL. */
  function Quoted(s: string): string {
    "\"" + EscapeText(CString(s)) + "\""
  }

  lemma {:induction false} EscapeConcat(a: string, b: string)
    ensures EscapeText(a + b) == EscapeText(a) + EscapeText(b)
  {
    if a == "" {
      assert a + b == b;
    } else {
      EscapeConcat(a[1..], b);
      EscapeHead(a, b);
      Assoc(EscapeChar(a[0]), EscapeText(a[1..]), EscapeText(b));
    }
  }

  lemma EscapeHead(a: string, b: string)
    requires a != ""
    ensures EscapeText(a + b) == EscapeChar(a[0]) + EscapeText(a[1..] + b)
  {
    assert (a + b)[1..] == a[1..] + b;
  }

  lemma EscapeSnoc(s: string, c: char)
    ensures EscapeText(s + [c]) == EscapeText(s) + EscapeChar(c)
  {
    EscapeConcat(s, [c]);
    assert [c][1..] == "";
    assert EscapeText([c]) == EscapeChar(c) + "";
  }

  lemma {:induction false} CStringPrefix(s: string, i: nat)
    requires i <= |s| && forall k | 0 <= k < i :: s[k] != '\0'
    ensures CString(s) == s[..i] + CString(s[i..])
  {
    if i > 0 {
      CStringPrefix(s[1..], i - 1);
      assert s[1..][i - 1..] == s[i..];
      assert [s[0]] + s[1..][..i - 1] == s[..i];
    }
  }

  method EscapeOne(c: char) returns (piece: string)
    ensures piece == EscapeChar(c)
  {
    piece := [c];
    if c == '\\' {
      piece := "\\\\";
    } else if c == '"' {
      piece := "\\\"";
    } else if c == '/' {
      piece := "\\/";
    } else if c == '\U{0008}' {
      piece := "\\b";
    } else if c == '\U{000C}' {
      piece := "\\f";
    } else if c == '\n' {
      piece := "\\n";
    } else if c == '\r' {
      piece := "\\r";
    } else if c == '\t' {
      piece := "\\t";
    } else if c < ' ' {
      piece := "\\u00" + [HexDigit(c as int / 16), HexDigit(c as int % 16)];
    }
  }

  /** The printer's loop over the characters up to the terminating NUL. */
  method InsertString(os: string, str: string) returns (r: string)
    ensures r == os + Quoted(str)
  {
    r := os + "\"";
    ghost var pre := r;
    var i := 0;
    while i < |str| && str[i] != '\0'
      invariant i <= |str|
      invariant forall k | 0 <= k < i :: str[k] != '\0'
      invariant r == pre + EscapeText(str[..i])
    {
      var piece := EscapeOne(str[i]);
      EscapeSnoc(str[..i], str[i]);
      assert str[..i + 1] == str[..i] + [str[i]];
      Assoc(pre, EscapeText(str[..i]), piece);
      r := r + piece;
      i := i + 1;
    }
    CStringPrefix(str, i);
    assert CString(str[i..]) == "";
    assert CString(str) == str[..i];
    QuoteAssoc(os, EscapeText(str[..i]));
    r := r + "\"";
  }

  lemma QuoteAssoc(os: string, body: string)
    ensures os + "\"" + body + "\"" == os + ("\"" + body + "\"")
  {
  }

  lemma Assoc(a: string, b: string, c: string)
    ensures a + b + c == a + (b + c)
  {
  }

  // ---- indentation

  function Spaces(n: nat): string {
    seq(n, _ => ' ')
  }

  function Indent(level: nat): string {
    "\n" + Spaces(2 * level)
  }

  const TABS: nat := 16

  /** The printer's indentation, in strides of 32 spaces. */
  method InsertIndent(os: string, level: nat) returns (r: string)
    ensures r == os + Indent(level)
    ensures |r| == |os| + 1 + 2 * level && r[..|os|] == os && r[|os|] == '\n'
    ensures forall k | |os| < k < |r| :: r[k] == ' '
  {
    r := os + "\n";
    var rest: nat := level;
    while rest > 0
      invariant rest <= level
      invariant r == os + "\n" + Spaces(2 * (level - rest))
    {
      if rest < TABS {
        r := r + Spaces(rest * 2);
        assert Spaces(2 * (level - rest)) + Spaces(rest * 2) == Spaces(2 * level);
        Assoc(os, "\n", Spaces(2 * level));
        return;
      } else {
        r := r + Spaces(2 * TABS);
        assert Spaces(2 * (level - rest)) + Spaces(2 * TABS) == Spaces(2 * (level - (rest - TABS)));
        rest := rest - TABS;
      }
    }
    Assoc(os, "\n", Spaces(2 * level));
  }

  // ---- values

  function Digits(n: nat): string {
    if n < 10 then [('0' as int + n) as char] else Digits(n / 10) + [('0' as int + n % 10) as char]
  }

  function Decimal(n: int): string {
    if n < 0 then "-" + Digits(-n) else Digits(n)
  }

  function Break(pretty: bool, level: nat): string {
    if pretty then Indent(level) else ""
  }

  function Print(v: Value, pretty: bool, level: nat): string
    requires level > 0
  {
    match v
    case Null => "null"
    case Bool(b) => if b then "true" else "false"
    case Number(n) => Decimal(n)
    case Float(literal) => literal
    case Str(s) => Quoted(s)
    case Array(elems) => "[" + PrintElems(elems, true, pretty, level) + Break(pretty, level - 1) + "]"
    case Object(members) => "{" + PrintMembers(members, true, pretty, level) + Break(pretty, level - 1) + "}"
  }

  function Separator(first: bool): string {
    if first then "" else ", "
  }

  function PrintElems(es: seq<Value>, first: bool, pretty: bool, level: nat): string
    requires level > 0
  {
    if es == [] then ""
    else
      Separator(first) + Break(pretty, level) + Print(es[0], pretty, level + 1)
      + PrintElems(es[1..], false, pretty, level)
  }

  function PrintMembers(ms: seq<Member>, first: bool, pretty: bool, level: nat): string
    requires level > 0
  {
    if ms == [] then ""
    else
      Separator(first) + Break(pretty, level) + Quoted(ms[0].key) + ": "
      + Print(ms[0].value, pretty, level + 1) + PrintMembers(ms[1..], false, pretty, level)
  }

  function ToJson(v: Value, pretty: bool): string {
    Print(v, pretty, 1)
  }
}

/** White space and comments: between tokens, and around a whole document. */
module JsonGaps {
  import opened Helpers
  import opened JsonTable
  import opened JsonValue
  import opened JsonParser
  import opened JsonPrinter
  import opened JsonStrings
  import opened JsonTokens
  import opened JsonRoundTrip

  /** White space characters and comments, in any order. */
  datatype Gap = Nothing | Space(c: char, rest: Gap) | Comment(body: string, rest: Gap)

  /** A comment may hold any text without its closing mark, control characters apart. */
  predicate CommentBody(body: string) {
    && (forall k | 0 <= k < |body| :: body[k] >= ' ' || White(body[k]))
    && (forall k | 1 <= k < |body| :: body[k - 1] == '*' ==> body[k] != '/')
  }

  predicate WellFormed(g: Gap) {
    match g
    case Nothing => true
    case Space(c, rest) => White(c) && WellFormed(rest)
    case Comment(body, rest) => CommentBody(body) && WellFormed(rest)
  }

  function Text(g: Gap): string {
    match g
    case Nothing => ""
    case Space(c, rest) => [c] + Text(rest)
    case Comment(body, rest) => "/*" + body + "*/" + Text(rest)
  }

  /** A comment that starts here ends in the same state. */
  predicate Resumes(m: Core) {
    && Between(m) && Skips(m.p.state) && m.p.stack != []
    && (TopMode(m.p) == Some(Mode.InArray) || TopMode(m.p) == Some(Mode.InObject) ==>
          m.p.state == VA || m.p.state == AR)
  }

  /** Inside a comment, just after a star or not. */
  function Inside(m: Core, star: bool): Core {
    m.(p := m.p.(beforeComment := m.p.state, comment := true, state := if star then C3 else C2))
  }

  lemma SlashRow(s: State)
    requires Skips(s)
    ensures ClassOf('/') == Some(SLASH) && Next(s, SLASH) == CommentBegin
  {
  }

  lemma SlashOpens(m: Core)
    requires Resumes(m)
    ensures Goes(m, "/", m.(p := m.p.(beforeComment := m.p.state, comment := true, state := C1)))
  {
    SlashRow(m.p.state);
    StoredThenActed(m, '/', SLASH, CommentBegin);
    PoppedAgain(m.p, '/');
    assert OnCommentBegin(Plus(m, '/')) == EnterComment(m);
    GoesOne(m, '/', m.(p := m.p.(beforeComment := m.p.state, comment := true, state := C1)));
  }

  /** Nothing is stored in a comment. */
  lemma CommentStep(m: Core, c: char, k: Class, s: State)
    requires m.p.comment && !m.p.escaped && ClassOf(c) == Some(k) && Next(m.p.state, k) == To(s) && s != OK
    ensures Goes(m, [c], m.(p := m.p.(state := s)))
  {
    assert AddChar(m.p, c, k) == Go(m.p);
    GoesOne(m, c, m.(p := m.p.(state := s)));
  }

  lemma StarRows()
    ensures ClassOf('*') == Some(STAR) && Next(C1, STAR) == To(C2)
    ensures Next(C2, STAR) == To(C3) && Next(C3, STAR) == To(C3) && Next(C3, SLASH) == CommentEnd
  {
  }

  /** After the slash, a star. */
  lemma StarFollows(m: Core)
    requires Between(m)
    ensures Goes(m.(p := m.p.(beforeComment := m.p.state, comment := true, state := C1)), "*", Inside(m, false))
  {
    StarRows();
    CommentStep(m.(p := m.p.(beforeComment := m.p.state, comment := true, state := C1)), '*', STAR, C2);
  }

  lemma CommentOpens(m: Core)
    requires Resumes(m)
    ensures Goes(m, "/*", Inside(m, false))
  {
    var m1 := m.(p := m.p.(beforeComment := m.p.state, comment := true, state := C1));
    SlashOpens(m);
    StarFollows(m);
    assert "/" + "*" == "/*";
    GoesTrans(m, "/", m1, "*", Inside(m, false));
  }

  lemma InsideRow(c: char, star: bool)
    requires c >= ' ' || White(c)
    requires star ==> c != '/'
    ensures ClassOf(c).Some?
    ensures Next(if star then C3 else C2, ClassOf(c).value) == To(if c == '*' then C3 else C2)
  {
    CommentClass(c);
    InsideClassRow(ClassOf(c).value, star);
  }

  lemma CommentClass(c: char)
    requires c >= ' ' || White(c)
    ensures ClassOf(c).Some? && (ClassOf(c).value.STAR? <==> c == '*') && (ClassOf(c).value.SLASH? <==> c == '/')
  {
  }

  lemma InsideClassRow(k: Class, star: bool)
    requires star ==> !k.SLASH?
    ensures Next(if star then C3 else C2, k) == To(if k.STAR? then C3 else C2)
  {
    if star {
      AfterStarRow(k);
    }
  }

  lemma AfterStarRow(k: Class)
    requires !k.SLASH?
    ensures Next(C3, k) == To(if k.STAR? then C3 else C2)
  {
  }

  lemma InsideStep(m: Core, c: char, star: bool)
    requires Between(m) && (c >= ' ' || White(c)) && (star ==> c != '/')
    ensures Goes(Inside(m, star), [c], Inside(m, c == '*'))
  {
    InsideRow(c, star);
    CommentStep(Inside(m, star), c, ClassOf(c).value, if c == '*' then C3 else C2);
  }

  function LastIsStar(body: string, star: bool): bool {
    if body == "" then star else body[|body| - 1] == '*'
  }

  lemma {:induction false} CommentRuns(m: Core, body: string, star: bool)
    requires Between(m) && CommentBody(body) && (star && body != "" ==> body[0] != '/')
    ensures Goes(Inside(m, star), body, Inside(m, LastIsStar(body, star)))
    decreases |body|
  {
    if body == "" {
      GoesNone(Inside(m, star));
    } else {
      var c := body[0];
      InsideStep(m, c, star);
      CommentRuns(m, body[1..], c == '*');
      GoesTrans(Inside(m, star), [c], Inside(m, c == '*'), body[1..], Inside(m, LastIsStar(body, star)));
      assert [c] + body[1..] == body;
    }
  }

  /** The parser afterwards remembers only where the comment started. */
  function Resumed(m: Core): Core {
    m.(p := m.p.(beforeComment := m.p.state))
  }

  lemma SlashEnds(m: Core)
    requires Between(m)
    ensures ParserChar(Inside(m, true), '/') == Act(Inside(m, true), CommentEnd)
  {
    var m1 := Inside(m, true);
    SlashRow(GO);
    StarRows();
    assert AddChar(m1.p, '/', SLASH) == Go(m1.p);
  }

  lemma SlashCloses(m: Core)
    requires Between(m) && (m.p.state == OK ==> m.depth != 0)
    ensures Goes(Inside(m, true), "/", Resumed(m))
  {
    SlashEnds(m);
    GoesOne(Inside(m, true), '/', Resumed(m));
  }

  lemma StarInside(m: Core, star: bool)
    requires Between(m)
    ensures Goes(Inside(m, star), "*", Inside(m, true))
  {
    InsideStep(m, '*', star);
  }

  lemma CommentCloses(m: Core, star: bool)
    requires Between(m) && (m.p.state == OK ==> m.depth != 0)
    ensures Goes(Inside(m, star), "*/", Resumed(m))
  {
    StarInside(m, star);
    SlashCloses(m);
    GoesTrans(Inside(m, star), "*", Inside(m, true), "/", Resumed(m));
    assert "*" + "/" == "*/";
  }

  /** A comment between tokens makes no difference. */
  lemma CommentBetween(m: Core, body: string)
    requires Resumes(m) && CommentBody(body)
    ensures Goes(m, "/*" + body + "*/", Resumed(m))
  {
    var m1 := Inside(m, LastIsStar(body, false));
    CommentOpens(m);
    CommentRuns(m, body, false);
    CommentCloses(m, LastIsStar(body, false));
    GoesTrans(m, "/*", Inside(m, false), body, m1);
    GoesTrans(m, "/*" + body, m1, "*/", Resumed(m));
  }

  lemma EndSlashRow(s: State)
    requires s == OK || s == ZE || s == IT || s == FR
    ensures ClassOf('/') == Some(SLASH) && Next(s, SLASH) == CommentBegin
  {
  }

  /** A comment right after a value ends it; an exponent is the one kind of value that does not allow it. */
  lemma CommentAfterValue(m: Core, b: Builder, body: string)
    requires AtEnd(m) && m.p.state != E3 && m.depth >= 1 && Settles(m, b) && CommentBody(body)
    requires TopMode(m.p) == Some(Mode.InArray) || TopMode(m.p) == Some(Mode.InObject)
    ensures Goes(m, "/*" + body + "*/", Resumed(Settled(m, OK, b)))
  {
    var m0 := Settled(m, OK, b);
    var m1 := m0.(p := m0.p.(beforeComment := OK, comment := true, state := C1));
    var m2 := Inside(m0, LastIsStar(body, false));
    EndSlashOpens(m, b);
    StarFollows(m0);
    CommentRuns(m0, body, false);
    CommentCloses(m0, LastIsStar(body, false));
    GoesTrans(m, "/", m1, "*", Inside(m0, false));
    assert "/" + "*" == "/*";
    GoesTrans(m, "/*", Inside(m0, false), body, m2);
    GoesTrans(m, "/*" + body, m2, "*/", Resumed(m0));
  }

  /** The slash is popped, the value reported, and the comment entered. */
  lemma SlashReports(m: Core, b: Builder)
    requires AtEnd(m) && Settles(m, b)
    ensures OnCommentBegin(Plus(m, '/')) == EnterComment(m.(p := m.p.(buf := ""), b := b))
  {
    PoppedAgain(m.p, '/');
    FlushSettles(m, b);
  }

  lemma EntersFromValue(m: Core, b: Builder)
    requires AtEnd(m)
    requires TopMode(m.p) == Some(Mode.InArray) || TopMode(m.p) == Some(Mode.InObject)
    ensures EnterComment(m.(p := m.p.(buf := ""), b := b))
         == Go(Settled(m, C1, b).(p := Settled(m, C1, b).p.(beforeComment := OK, comment := true)))
  {
  }

  lemma EndSlashOpens(m: Core, b: Builder)
    requires AtEnd(m) && m.p.state != E3 && Settles(m, b)
    requires TopMode(m.p) == Some(Mode.InArray) || TopMode(m.p) == Some(Mode.InObject)
    ensures var m0 := Settled(m, OK, b);
            Goes(m, "/", m0.(p := m0.p.(beforeComment := OK, comment := true, state := C1)))
  {
    EndSlashRow(m.p.state);
    StoredThenActed(m, '/', SLASH, CommentBegin);
    SlashReports(m, b);
    EntersFromValue(m, b);
    var m0 := Settled(m, OK, b);
    GoesOne(m, '/', m0.(p := m0.p.(beforeComment := OK, comment := true, state := C1)));
  }

  /** Any white space and comments between tokens leave the parser where it was. */
  lemma {:induction false} GapBetween(m: Core, g: Gap) returns (m': Core)
    requires Resumes(m) && WellFormed(g)
    ensures Goes(m, Text(g), m') && (m' == m || m' == Resumed(m))
    decreases g
  {
    match g
    case Nothing =>
      m' := m;
      GoesNone(m);
    case Space(c, rest) =>
      WhiteIsSkipped(m, c);
      m' := GapBetween(m, rest);
      GoesTrans(m, [c], m, Text(rest), m');
    case Comment(body, rest) =>
      CommentBetween(m, body);
      m' := GapBetween(Resumed(m), rest);
      GoesTrans(m, "/*" + body + "*/", Resumed(m), Text(rest), m');
  }

  /** What stands in front of a document is skipped, whatever the document is. */
  lemma LeadingGap(g: Gap, text: string)
    requires WellFormed(g)
    ensures Parse(Text(g) + text) == Parse(text)
    ensures forall k | 0 <= k <= |Text(g)| :: Parse(Text(g)[..k]).Running?
  {
    var m0 := Initial();
    var m := GapBetween(m0, g);
    assert m == m0;
    GoesFeeds(m0, Text(g), m0);
    FeedConcat(Running(m0), Text(g), text);
    forall k | 0 <= k <= |Text(g)| ensures Parse(Text(g)[..k]).Running? {
      PrefixRuns(Running(m0), Text(g), k);
    }
  }

  /**
   * A printed document with any white space and comments in front of it, and any text at all
   * after it, is the printed tree: nothing before its last character completes it, and nothing after counts.
   */
  lemma SurroundedDocument(g: Gap, v: Value, pretty: bool, after: string)
    requires WellFormed(g) && Printable(v) && (v.Array? || v.Object?)
    ensures Tree(Parse(Text(g) + ToJson(v, pretty) + after)) == Some(v)
    ensures forall k | 0 <= k < |Text(g) + ToJson(v, pretty)| ::
              Parse((Text(g) + ToJson(v, pretty) + after)[..k]).Running?
  {
    var front, text := Text(g), ToJson(v, pretty);
    ParseUndoesPrint(v, pretty);
    LeadingGap(g, text);
    FeedConcat(Running(Initial()), front + text, after);
    Stopped(Parse(text), after);
    forall k | 0 <= k < |front + text| ensures Parse((front + text + after)[..k]).Running? {
      if k <= |front| {
        assert (front + text + after)[..k] == front[..k];
      } else {
        assert (front + text + after)[..k] == front + text[..k - |front|];
        LeadingGap(g, text[..k - |front|]);
      }
    }
  }

  /** A string of white space is such a gap. */
  function Spaces(s: string): (g: Gap)
    requires Blank(s)
    ensures WellFormed(g) && Text(g) == s
  {
    if s == "" then Nothing else
    assert [s[0]] + s[1..] == s;
    Space(s[0], Spaces(s[1..]))
  }

  /** Spaces, tabs, newlines and returns in front of a printed document change nothing. */
  lemma LeadingWhiteSpace(ws: string, v: Value, pretty: bool)
    requires forall k | 0 <= k < |ws| :: ws[k] == ' ' || ws[k] == '\t' || ws[k] == '\n' || ws[k] == '\r'
    requires Printable(v) && (v.Array? || v.Object?)
    ensures Parse(ws + ToJson(v, pretty)) == Parse(ToJson(v, pretty))
    ensures Tree(Parse(ws + ToJson(v, pretty))) == Some(v)
  {
    LeadingGap(Spaces(ws), ToJson(v, pretty));
    ReadBack(v, pretty);
  }
}

/**
 * The status lines that the parser accepts are exactly those of a grammar.
 */
module HttpStatusGrammar {
  import opened Basics
  import opened HttpChars
  import opened HttpParserTypes
  import opened HttpParserStep
  import opened HttpParserFeed
  import opened HttpNumbers
  import opened HttpLineGrammar

  // ---------------------------------------------------------------- status lines, from the end

  /** A reason and the line end: the only CR is the one before the LF. */
  predicate ReasonEnds(q: seq<char>) {
    forall i :: 0 <= i < |q| - 1 ==> q[i] != CR
  }

  predicate CodeEnds(q: seq<char>) {
    EndsLine(q) || (q[0] == ' ' && ReasonEnds(q[1..]))
  }

  predicate StatusEnds(r: seq<char>) {
    var k := Leading(r, IsNum); NumberText(r[..k]) && CodeEnds(r[k..])
  }

  predicate GapEnds(r: seq<char>) {
    StatusEnds(r[Leading(r, IsSpace)..])
  }

  predicate ResponseMinorEnds(r: seq<char>) {
    var k := Leading(r, IsNum); k < |r| && NumberText(r[..k]) && r[k] == ' ' && GapEnds(r[k + 1..])
  }

  predicate ResponseVersionEnds(r: seq<char>) {
    var k := Leading(r, IsNum); k < |r| && NumberText(r[..k]) && r[k] == '.' && ResponseMinorEnds(r[k + 1..])
  }

  predicate StatusLineEnds(b: seq<char>) {
    5 <= |b| && b[..5] == "HTTP/" && ResponseVersionEnds(b[5..])
  }

  lemma ReasonBytes(cfg: Settings, c: Core, ch: char)
    requires c.state.ResStatusStart? || c.state.ResStatus?
    ensures var o := Dispatch(cfg, c, ch);
            && o.act.Advance?
            && if ch == CR then o.core == c.(state := ResLineAlmostDone)
               else if ch == LF then o.core == c.(state := HeaderFieldStart)
               else o.core == c.(state := ResStatus, index := o.core.index)
  {
  }

  lemma {:induction false} ReasonIff(cfg: Settings, c: Core, q: seq<char>)
    requires (c.state.ResStatusStart? || c.state.ResStatus?) && LF !in q
    ensures Stops(cfg, c, q + [LF]) <==> !ReasonEnds(q)
    ensures ReasonEnds(q) ==>
              var d := Feed(cfg, c, q + [LF], 0).core; d == c.(state := HeaderFieldStart, index := d.index)
    decreases |q|
  {
    hide Dispatch, Feed, Stops;
    var line := q + [LF];
    ReasonBytes(cfg, c, line[0]);
    CoreRest(cfg, c, line);
    var c1 := Dispatch(cfg, c, line[0]).core;
    if q == [] {
      NothingLeft(cfg, c1, []);
      NoStop(cfg, c1);
    } else {
      assert line[1..] == q[1..] + [LF];
      if q[0] == CR {
        AlmostDoneIff(cfg, c1, q[1..]);
      } else {
        ReasonIff(cfg, c1, q[1..]);
        assert ReasonEnds(q) <==> ReasonEnds(q[1..]) by { ReasonTail(q); }
      }
    }
  }

  lemma ReasonTail(q: seq<char>)
    requires q != [] && q[0] != CR
    ensures ReasonEnds(q) <==> ReasonEnds(q[1..])
  {
    if ReasonEnds(q[1..]) {
      forall i | 0 <= i < |q| - 1
        ensures q[i] != CR
      {
        assert 0 < i ==> q[1..][i - 1] == q[i];
      }
    }
  }

  lemma CodeByte(cfg: Settings, c: Core, ch: char)
    requires c.state.ResStatusCode? && !IsNum(ch)
    ensures var o := Dispatch(cfg, c, ch);
            if ch == ' ' then o == To(c, ResStatusStart)
            else if ch == CR then o == To(c, ResLineAlmostDone)
            else if ch == LF then o == To(c, HeaderFieldStart)
            else o.act.Fail?
  {
  }

  lemma FirstCodeByte(cfg: Settings, c: Core, ch: char)
    requires c.state.ResFirstStatusCode? && ch != ' '
    ensures if IsNum(ch) then Dispatch(cfg, c, ch) == To(c.(status := DigitValue(ch)), ResStatusCode)
            else Dispatch(cfg, c, ch).act.Fail?
  {
  }

  lemma CodeIff(cfg: Settings, c: Core, q: seq<char>)
    requires c.state.ResStatusCode? && LF !in q && (q == [] || !IsNum(q[0]))
    ensures Stops(cfg, c, q + [LF]) <==> !CodeEnds(q)
    ensures CodeEnds(q) ==>
              var d := Feed(cfg, c, q + [LF], 0).core; d == c.(state := HeaderFieldStart, index := d.index)
  {
    hide Dispatch, Feed, Stops, ReasonEnds;
    var line := q + [LF];
    CodeByte(cfg, c, line[0]);
    StopsFirst(cfg, c, line);
    var o := Dispatch(cfg, c, line[0]);
    if o.act.Advance? {
      CoreRest(cfg, c, line);
      if q == [] {
        NothingLeft(cfg, o.core, []);
        NoStop(cfg, o.core);
      } else {
        assert line[1..] == q[1..] + [LF];
        if q[0] == CR {
          AlmostDoneIff(cfg, o.core, q[1..]);
        } else {
          ReasonIff(cfg, o.core, q[1..]);
        }
      }
    }
  }

  /** A whole status. */
  lemma WholeCode(cfg: Settings, c: Core, d: seq<char>)
    requires c.state.ResFirstStatusCode? && d != [] && AllDigits(d)
    ensures if NumberText(d)
            then Feed(cfg, c, d, 0) == Fed(c.(state := ResStatusCode, status := Decimal(0, d)), |d|, [], false)
            else Stops(cfg, c, d)
  {
    hide Dispatch, Feed, Decimal, DigitValue;
    FirstCodeByte(cfg, c, d[0]);
    StopsFirst(cfg, c, d);
    var c1 := c.(state := ResStatusCode, status := DigitValue(d[0]));
    FeedNumber(cfg, c1, d[1..]);
    DecimalFirst(0, d);
    FeedRest(cfg, c, d, c1);
  }

  /** What is left behind a status line, but for the version. */
  predicate LeavesStatus(cfg: Settings, c: Core, r: seq<char>, status: nat) {
    var d := Feed(cfg, c, r + [LF], 0).core;
    d == c.(state := HeaderFieldStart, status := status, index := d.index)
  }

  lemma StatusIff(cfg: Settings, c: Core, r: seq<char>)
    requires c.state.ResFirstStatusCode? && LF !in r && (r == [] || r[0] != ' ')
    ensures Stops(cfg, c, r + [LF]) <==> !StatusEnds(r)
    ensures StatusEnds(r) ==> LeavesStatus(cfg, c, r, Decimal(0, r[..Leading(r, IsNum)]))
  {
    hide Dispatch, Feed, Decimal, CodeEnds;
    var k := Leading(r, IsNum);
    var line := r + [LF];
    if k == 0 {
      FirstCodeByte(cfg, c, line[0]);
      StopsFirst(cfg, c, line);
    } else {
      WholeCode(cfg, c, r[..k]);
      assert line == r[..k] + (r[k..] + [LF]);
      StopsSplit(cfg, c, r[..k], r[k..] + [LF]);
      if NumberText(r[..k]) {
        CoreSplit(cfg, c, r[..k], r[k..] + [LF]);
        CodeIff(cfg, c.(state := ResStatusCode, status := Decimal(0, r[..k])), r[k..]);
      }
    }
  }

  /** The status behind the spaces. */
  function StatusOf(r: seq<char>): nat
    requires GapEnds(r)
  {
    var x := r[Leading(r, IsSpace)..];
    Decimal(0, x[..Leading(x, IsNum)])
  }

  lemma GapIff(cfg: Settings, c: Core, r: seq<char>)
    requires c.state.ResFirstStatusCode? && LF !in r
    ensures Stops(cfg, c, r + [LF]) <==> !GapEnds(r)
    ensures GapEnds(r) ==> LeavesStatus(cfg, c, r, StatusOf(r))
  {
    hide Dispatch, Feed, Decimal, Stops, StatusEnds;
    var k := Leading(r, IsSpace);
    FeedSpaces(cfg, c, r[..k], 0);
    assert r + [LF] == r[..k] + (r[k..] + [LF]);
    NotStopped(cfg, c, r[..k]);
    CoreSplit(cfg, c, r[..k], r[k..] + [LF]);
    StatusIff(cfg, c, r[k..]);
  }

  /** The numbers of a status line. */
  datatype StatusNumbers = StatusNumbers(major: nat, minor: nat, status: nat)

  function MinorNumbers(major: nat, r: seq<char>): StatusNumbers
    requires ResponseMinorEnds(r)
  {
    var k := Leading(r, IsNum);
    StatusNumbers(major, Decimal(0, r[..k]), StatusOf(r[k + 1..]))
  }

  function VersionNumbers(r: seq<char>): StatusNumbers
    requires ResponseVersionEnds(r)
  {
    var k := Leading(r, IsNum);
    MinorNumbers(Decimal(0, r[..k]), r[k + 1..])
  }

  /** What is left of a status line in the parser. */
  predicate LeavesNumbers(cfg: Settings, c: Core, r: seq<char>, n: StatusNumbers) {
    var d := Feed(cfg, c, r + [LF], 0).core;
    d == c.(state := HeaderFieldStart, major := n.major, minor := n.minor, status := n.status, index := d.index)
  }

  lemma ResponseMinorIff(cfg: Settings, c: Core, r: seq<char>)
    requires c.state.ResFirstMinor? && LF !in r
    ensures Stops(cfg, c, r + [LF]) <==> !ResponseMinorEnds(r)
    ensures ResponseMinorEnds(r) ==> LeavesNumbers(cfg, c, r, MinorNumbers(c.major, r))
  {
    hide Dispatch, Feed, Decimal, Stops, Leading, GapEnds, StatusOf, NumberText;
    var k := Leading(r, IsNum);
    NumberThen(cfg, c, r);
    if NumberText(r[..k]) {
      var c1 := c.(state := ResMinor, minor := Decimal(0, r[..k]));
      var rest := r[k..] + [LF];
      VersionByte(cfg, c1, rest[0]);
      StopsFirst(cfg, c1, rest);
      if k < |r| && r[k] == ' ' {
        CoreRest(cfg, c1, rest);
        assert rest[1..] == r[k + 1..] + [LF];
        GapIff(cfg, c1.(state := ResFirstStatusCode), r[k + 1..]);
      }
    }
  }

  lemma ResponseVersionIff(cfg: Settings, c: Core, r: seq<char>)
    requires c.state.ResFirstMajor? && LF !in r
    ensures Stops(cfg, c, r + [LF]) <==> !ResponseVersionEnds(r)
    ensures ResponseVersionEnds(r) ==> LeavesNumbers(cfg, c, r, VersionNumbers(r))
  {
    hide Dispatch, Feed, Decimal, Stops, Leading, ResponseMinorEnds, MinorNumbers, NumberText;
    var k := Leading(r, IsNum);
    NumberThen(cfg, c, r);
    if NumberText(r[..k]) {
      var c1 := c.(state := ResMajor, major := Decimal(0, r[..k]));
      var rest := r[k..] + [LF];
      VersionByte(cfg, c1, rest[0]);
      StopsFirst(cfg, c1, rest);
      if k < |r| && r[k] == '.' {
        CoreRest(cfg, c1, rest);
        assert rest[1..] == r[k + 1..] + [LF];
        ResponseMinorIff(cfg, c1.(state := ResFirstMinor), r[k + 1..]);
      }
    }
  }

  /** The word before the version of a response, by the number of its letters read. */
  function ResponseWordState(i: nat): State
    requires i <= 5
  {
    if i == 0 then StartRes else if i == 1 then ResH else if i == 2 then ResHT
    else if i == 3 then ResHTT else if i == 4 then ResHTTP else ResFirstMajor
  }

  lemma ResponseWordByte(cfg: Settings, c: Core, ch: char, i: nat)
    requires i < 5 && c.state == ResponseWordState(i) && c.errno.Ok? && (i == 0 ==> ch != CR && ch != LF)
    ensures var o := Dispatch(cfg, c, ch);
            if ch == "HTTP/"[i] then
              o.act.Advance? && o.core == (if i == 0 then Fresh(c) else c).(state := ResponseWordState(i + 1))
            else o.act.Fail?
  {
  }

  lemma ResponseWordIff(cfg: Settings, c: Core, b: seq<char>, i: nat)
    requires i <= 5 && c.state == ResponseWordState(i) && LF !in b && i <= |b| && b[..i] == "HTTP/"[..i]
    requires c.errno.Ok? && b != [] && b[0] != CR
    ensures Stops(cfg, c, b[i..] + [LF]) <==> !StatusLineEnds(b)
    ensures StatusLineEnds(b) ==>
              var d := Feed(cfg, c, b[i..] + [LF], 0).core; var n := VersionNumbers(b[5..]);
              d == (if i == 0 then Fresh(c) else c).(state := HeaderFieldStart, major := n.major, minor := n.minor,
                                                     status := n.status, index := d.index)
    decreases 5 - i
  {
    hide Dispatch, Feed, Stops, ResponseVersionEnds, VersionNumbers, ResponseWordState;
    if i == 5 {
      assert ResponseWordState(5).ResFirstMajor? by { ResponseWordOver(); }
      ResponseVersionIff(cfg, c, b[5..]);
    } else {
      var line := b[i..] + [LF];
      ResponseWordByte(cfg, c, line[0], i);
      StopsFirst(cfg, c, line);
      WordGoesOn(b, i);
      if i < |b| && b[i] == "HTTP/"[i] {
        assert line[0] == b[i] && line[1..] == b[i + 1..] + [LF];
        CoreRest(cfg, c, line);
        ResponseWordIff(cfg, Dispatch(cfg, c, line[0]).core, b, i + 1);
      }
    }
  }

  lemma ResponseWordOver()
    ensures ResponseWordState(5) == ResFirstMajor
  {
  }

  // ---------------------------------------------------------------- the grammar of status lines

  /** A status line; the reason may be missing. */
  datatype StatusText =
    StatusText(major: seq<char>, minor: seq<char>, gap: nat, code: seq<char>, reason: Option<seq<char>>, cr: bool)
  {
    predicate Fits() {
      && NumberText(major) && NumberText(minor) && NumberText(code)
      && (reason.Some? ==> CR !in reason.value && LF !in reason.value)
    }

    /** The line up to its LF. */
    function Text(): seq<char> {
      "HTTP/" + (major + ("." + (minor + (" " + (Spaces(gap) + (code + Behind()))))))
    }

    function Behind(): seq<char> {
      (if reason.Some? then " " + reason.value else []) + Cr(cr)
    }

    function Numbers(): StatusNumbers
      requires Fits()
    {
      StatusNumbers(Decimal(0, major), Decimal(0, minor), Decimal(0, code))
    }
  }

  // from a text to its parts

  lemma ReasonParts(t: StatusText)
    requires t.Fits()
    ensures CodeEnds(t.Behind()) && (t.Behind() == [] || t.Behind()[0] == ' ' || t.Behind()[0] == CR)
  {
    hide NumberText;
    if t.reason.Some? {
      assert t.Behind()[1..] == t.reason.value + Cr(t.cr);
    } else {
      assert [] + Cr(t.cr) == Cr(t.cr);
    }
  }

  lemma CodeParts(t: StatusText)
    requires t.Fits()
    ensures var r := Spaces(t.gap) + (t.code + t.Behind()); GapEnds(r) && StatusOf(r) == Decimal(0, t.code)
  {
    hide Decimal, CodeEnds, StatusText.Behind;
    ReasonParts(t);
    LeadingIs(Spaces(t.gap), t.code + t.Behind(), IsSpace);
    LeadingIs(t.code, t.Behind(), IsNum);
  }

  lemma StatusParts(t: StatusText)
    requires t.Fits()
    ensures var b := t.Text(); StatusLineEnds(b) && VersionNumbers(b[5..]) == t.Numbers()
  {
    hide Decimal, GapEnds, StatusOf, StatusText.Behind;
    CodeParts(t);
    var r := Spaces(t.gap) + (t.code + t.Behind());
    var x := t.minor + (" " + r);
    var v := t.major + ("." + x);
    LeadingIs(t.minor, " " + r, IsNum);
    assert x[|t.minor| + 1..] == r;
    LeadingIs(t.major, "." + x, IsNum);
    assert v[|t.major| + 1..] == x;
    assert t.Text()[5..] == v;
  }

  // from the parts to a text

  lemma ReasonSplit(q: seq<char>) returns (reason: Option<seq<char>>, cr: bool)
    requires CodeEnds(q) && LF !in q
    ensures q == (if reason.Some? then " " + reason.value else []) + Cr(cr)
    ensures reason.Some? ==> CR !in reason.value && LF !in reason.value
  {
    if EndsLine(q) {
      reason, cr := None, q == [CR];
    } else {
      var r := q[1..];
      cr := r != [] && r[|r| - 1] == CR;
      var v := if cr then r[..|r| - 1] else r;
      reason := Some(v);
      assert q == " " + r && r == v + Cr(cr);
      assert " " + (v + Cr(cr)) == " " + v + Cr(cr);
      forall i | 0 <= i < |v|
        ensures v[i] != CR && v[i] != LF
      {
        assert v[i] == q[i + 1];
      }
    }
  }

  lemma CodeSplit(r: seq<char>) returns (gap: nat, code: seq<char>, reason: Option<seq<char>>, cr: bool)
    requires GapEnds(r) && LF !in r
    ensures NumberText(code) && (reason.Some? ==> CR !in reason.value && LF !in reason.value)
    ensures r == Spaces(gap) + (code + ((if reason.Some? then " " + reason.value else []) + Cr(cr)))
  {
    hide CodeEnds, NumberText;
    gap := Leading(r, IsSpace);
    var x := r[gap..];
    var k := Leading(x, IsNum);
    code := x[..k];
    SpacesAre(r[..gap]);
    reason, cr := ReasonSplit(x[k..]);
    assert x == code + x[k..] && r == Spaces(gap) + x;
  }

  lemma MinorSplit(x: seq<char>, major: seq<char>) returns (t: StatusText)
    requires ResponseMinorEnds(x) && LF !in x && NumberText(major)
    ensures t.Fits() && t.major == major
    ensures x == t.minor + (" " + (Spaces(t.gap) + (t.code + t.Behind())))
  {
    hide Decimal, GapEnds;
    var e := Leading(x, IsNum);
    var gap, code, reason, cr := CodeSplit(x[e + 1..]);
    t := StatusText(major, x[..e], gap, code, reason, cr);
    assert x == x[..e] + (" " + x[e + 1..]);
  }

  lemma StatusSplit(b: seq<char>) returns (t: StatusText)
    requires StatusLineEnds(b) && LF !in b
    ensures t.Fits() && t.Text() == b
  {
    hide Decimal, ResponseMinorEnds, StatusText.Fits, StatusText.Behind;
    var v := b[5..];
    var k := Leading(v, IsNum);
    t := MinorSplit(v[k + 1..], v[..k]);
    assert v == v[..k] + ("." + v[k + 1..]);
    assert b == "HTTP/" + v;
  }

  /**
   * A status line is accepted if and only if it is one of the grammar, and then its version and its status are left in
   * the parser, which is at the first header.
   */
  lemma StatusLineIff(cfg: Settings, c: Core, b: seq<char>)
    requires c.state.StartRes? && c.errno.Ok? && b != [] && b[0] != CR && LF !in b
    ensures Stops(cfg, c, b + [LF]) <==> !exists t: StatusText :: t.Fits() && t.Text() == b
  {
    hide Feed, Stops, StatusLineEnds, StatusText.Fits, StatusText.Text;
    assert b[0..] == b && "HTTP/"[..0] == b[..0];
    ResponseWordIff(cfg, c, b, 0);
    if StatusLineEnds(b) {
      var t := StatusSplit(b);
    }
    forall t: StatusText | t.Fits() && t.Text() == b
      ensures StatusLineEnds(b)
    {
      StatusParts(t);
    }
  }

  lemma StatusLineLeaves(cfg: Settings, c: Core, t: StatusText)
    requires c.state.StartRes? && c.errno.Ok? && t.Fits()
    ensures LF !in t.Text() && !Stops(cfg, c, t.Text() + [LF])
    ensures var d := Feed(cfg, c, t.Text() + [LF], 0).core; var n := t.Numbers();
            d == Fresh(c).(state := HeaderFieldStart, major := n.major, minor := n.minor, status := n.status,
                           index := d.index)
  {
    hide Feed, Stops, StatusText.Numbers, VersionNumbers;
    var b := t.Text();
    StatusParts(t);
    StatusLetters(t);
    assert b[0..] == b && "HTTP/"[..0] == b[..0];
    ResponseWordIff(cfg, c, b, 0);
  }

  lemma StatusLetters(t: StatusText)
    requires t.Fits()
    ensures t.Text() != [] && t.Text()[0] == 'H' && LF !in t.Text()
  {
    hide Decimal;
    assert LF !in t.major && LF !in t.minor && LF !in t.code && LF !in "HTTP/";
  }
}

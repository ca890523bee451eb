/**
 * The first line of a message: what a request line and a status line leave in the parser, and hand over.
 */
module HttpStartLines {
  import opened Basics
  import opened HttpChars
  import opened HttpParserTypes
  import opened HttpParserStep
  import opened HttpParserFeed
  import opened HttpMethods
  import opened HttpHeaders

  /** The URL automaton over a whole string. */
  function UrlRun(s: State, url: seq<char>): State
    decreases |url|
  {
    if url == [] then s else UrlRun(ParseUrlChar(s, url[0]), url[1..])
  }

  /** A schema whose authority has not begun. */
  predicate InSchema(s: State) {
    s.ReqSchema? || s.ReqSchemaSlash? || s.ReqSchemaSlashSlash? || s.ReqServerStart?
  }

  /** What may stand between the two spaces of a request line. */
  predicate IsTarget(isConnect: bool, url: seq<char>) {
    url != [] &&
    var s := UrlRun(if isConnect then ReqServerStart else ReqSpacesBeforeUrl, url);
    !s.Dead? && !InSchema(s)
  }

  datatype StartLine =
    | RequestStart(meth: Method, target: seq<char>, major: char, minor: char, bare: bool)
    | ResponseStart(major: char, minor: char, code: seq<char>, reason: seq<char>, bare: bool)
  {
    predicate Fits() {
      match this
      case RequestStart(m, target, major, minor, _) =>
        IsTarget(m.CONNECT?, target) && '1' <= major <= '9' && IsNum(minor)
      case ResponseStart(major, minor, code, reason, _) =>
        && IsNum(major) && IsNum(minor)
        && |code| == 3 && IsNum(code[0]) && IsNum(code[1]) && IsNum(code[2])
        && CR !in reason && LF !in reason
    }

    function Text(): seq<char> {
      match this
      case RequestStart(m, target, major, minor, bare) =>
        MethodString(m) + " " + target + " HTTP/" + [major, '.', minor] + LineEnd(bare)
      case ResponseStart(major, minor, code, reason, bare) =>
        "HTTP/" + [major, '.', minor, ' '] + code + " " + reason + LineEnd(bare)
    }

    function Events(): seq<Event> {
      match this
      case RequestStart(_, target, _, _, _) => [MessageBegin] + DataEvents(Url, target)
      case ResponseStart(_, _, _, reason, _) => [MessageBegin] + DataEvents(Piece.StatusLine, reason)
    }

    /** A parser that expects such a line. */
    predicate Expected(c: Core) {
      c.errno.Ok? &&
      match this
      case RequestStart(_, _, _, _, _) => c.state.StartReq? && c.kind.Request?
      case ResponseStart(_, _, _, _, _) => c.state.StartRes? && c.kind.Response?
    }

    /** The parser behind the line; the index belongs to the matchers. */
    function Leaves(c: Core, index: nat): Core
      requires Fits()
    {
      match this
      case RequestStart(m, _, major, minor, _) =>
        Fresh(c).(state := HeaderFieldStart, meth := m, major := DigitValue(major), minor := DigitValue(minor),
                  index := index)
      case ResponseStart(major, minor, code, _, _) =>
        Fresh(c).(state := HeaderFieldStart, major := DigitValue(major), minor := DigitValue(minor), index := index,
                  status := (DigitValue(code[0]) * 10 + DigitValue(code[1])) * 10 + DigitValue(code[2]))
    }
  }

  // ---------------------------------------------------------------- the request line

  /** The state in which the automaton takes the next character. */
  function UrlState(c: Core): State {
    if c.state.ReqSpacesBeforeUrl? && c.meth.CONNECT? then ReqServerStart else c.state
  }

  lemma UrlByte(cfg: Settings, c: Core, ch: char)
    requires c.state.ReqSpacesBeforeUrl? || IsUrlState(c.state)
    ensures var s := ParseUrlChar(UrlState(c), ch);
            !s.Dead? ==> Dispatch(cfg, c, ch) == Keep(c, s, Url)
  {
  }

  lemma {:induction false} DeadStays(url: seq<char>)
    ensures UrlRun(Dead, url).Dead?
  {
    if url != [] {
      DeadStays(url[1..]);
    }
  }

  /** A target is handed over, and leaves the automaton where it comes to. */
  lemma {:induction false} FeedTarget(cfg: Settings, c: Core, url: seq<char>, p: nat)
    requires p <= |url| && (IsUrlState(c.state) || (p < |url| && c.state.ReqSpacesBeforeUrl?))
    requires !UrlRun(UrlState(c), url[p..]).Dead?
    ensures Feed(cfg, c, url, p) ==
            Fed(c.(state := UrlRun(UrlState(c), url[p..])), |url|, DataEvents(Url, url[p..]), false)
    ensures IsUrlState(Feed(cfg, c, url, p).core.state)
    decreases |url| - p
  {
    hide Dispatch, Feed, Slips, SlipsAt, ParseUrlChar, DataEvents;
    if p == |url| {
      NothingLeft(cfg, c, url);
      assert url[p..] == [] && DataEvents(Url, url[p..]) == [];
    } else {
      var s' := ParseUrlChar(UrlState(c), url[p]);
      assert url[p..][0] == url[p] && url[p..][1..] == url[p + 1..];
      DeadStays(url[p + 1..]);
      UrlByte(cfg, c, url[p]);
      FeedAdvance(cfg, c, url, p);
      FeedTarget(cfg, c.(state := s'), url, p + 1);
      DataFirst(Url, url, p);
    }
  }

  /** The bytes of the version, and of the line end behind it. */
  lemma RequestBytes(cfg: Settings, c: Core)
    ensures IsUrlState(c.state) && !InSchema(c.state) ==> Dispatch(cfg, c, ' ') == Flush(c, ReqHttpStart, Url)
    ensures c.state.ReqHttpStart? ==> Dispatch(cfg, c, 'H') == To(c, ReqHttpH)
    ensures c.state.ReqHttpH? ==> Dispatch(cfg, c, 'T') == To(c, ReqHttpHT)
    ensures c.state.ReqHttpHT? ==> Dispatch(cfg, c, 'T') == To(c, ReqHttpHTT)
    ensures c.state.ReqHttpHTT? ==> Dispatch(cfg, c, 'P') == To(c, ReqHttpHTTP)
    ensures c.state.ReqHttpHTTP? ==> Dispatch(cfg, c, '/') == To(c, ReqFirstMajor)
  {
  }

  lemma RequestVersion(cfg: Settings, c: Core, ch: char)
    ensures c.state.ReqFirstMajor? && '1' <= ch <= '9' ==>
              Dispatch(cfg, c, ch) == To(c.(major := DigitValue(ch)), ReqMajor)
    ensures c.state.ReqMajor? ==> Dispatch(cfg, c, '.') == To(c, ReqFirstMinor)
    ensures c.state.ReqFirstMinor? && IsNum(ch) ==> Dispatch(cfg, c, ch) == To(c.(minor := DigitValue(ch)), ReqMinor)
    ensures c.state.ReqMinor? ==> Dispatch(cfg, c, CR) == To(c, ReqLineAlmostDone)
    ensures c.state.ReqMinor? ==> Dispatch(cfg, c, LF) == To(c, HeaderFieldStart)
    ensures c.state.ReqLineAlmostDone? ==> Dispatch(cfg, c, LF) == To(c, HeaderFieldStart)
  {
  }

  /** A byte that hands nothing over. */
  lemma FeedQuiet(cfg: Settings, c: Core, data: seq<char>, p: nat, c1: Core)
    requires p < |data|
    requires var o := Dispatch(cfg, c, data[p]); o.act.Advance? && o.core == c1 && o.data.None? && o.notes == []
    ensures Feed(cfg, c, data, p) == Feed(cfg, c1, data, p + 1)
  {
    hide Dispatch, Feed, Slips, SlipsAt;
    FeedAdvance(cfg, c, data, p);
    AfterNothing(Feed(cfg, c1, data, p + 1));
  }

  lemma FeedWord(cfg: Settings, c: Core)
    requires IsUrlState(c.state) && !InSchema(c.state)
    ensures Feed(cfg, c, " HTTP/", 0) == Fed(c.(state := ReqFirstMajor), 6, [], false)
  {
    hide Dispatch, Feed, Slips, SlipsAt, IsUrlState;
    var s := " HTTP/";
    RequestBytes(cfg, c);
    FeedQuiet(cfg, c, s, 0, c.(state := ReqHttpStart));
    RequestBytes(cfg, c.(state := ReqHttpStart));
    FeedQuiet(cfg, c.(state := ReqHttpStart), s, 1, c.(state := ReqHttpH));
    RequestBytes(cfg, c.(state := ReqHttpH));
    FeedQuiet(cfg, c.(state := ReqHttpH), s, 2, c.(state := ReqHttpHT));
    RequestBytes(cfg, c.(state := ReqHttpHT));
    FeedQuiet(cfg, c.(state := ReqHttpHT), s, 3, c.(state := ReqHttpHTT));
    RequestBytes(cfg, c.(state := ReqHttpHTT));
    FeedQuiet(cfg, c.(state := ReqHttpHTT), s, 4, c.(state := ReqHttpHTTP));
    RequestBytes(cfg, c.(state := ReqHttpHTTP));
    FeedQuiet(cfg, c.(state := ReqHttpHTTP), s, 5, c.(state := ReqFirstMajor));
    NothingLeft(cfg, c.(state := ReqFirstMajor), s);
  }

  lemma FeedVersion(cfg: Settings, c: Core, major: char, minor: char)
    requires c.state.ReqFirstMajor? && '1' <= major <= '9' && IsNum(minor)
    ensures Feed(cfg, c, [major, '.', minor], 0) ==
            Fed(c.(state := ReqMinor, major := DigitValue(major), minor := DigitValue(minor)), 3, [], false)
  {
    hide Dispatch, Feed, Slips, SlipsAt;
    var s := [major, '.', minor];
    var c1 := c.(state := ReqMajor, major := DigitValue(major));
    var c2 := c1.(state := ReqFirstMinor);
    var c3 := c2.(state := ReqMinor, minor := DigitValue(minor));
    RequestVersion(cfg, c, major);
    FeedQuiet(cfg, c, s, 0, c1);
    RequestVersion(cfg, c1, '.');
    FeedQuiet(cfg, c1, s, 1, c2);
    RequestVersion(cfg, c2, minor);
    FeedQuiet(cfg, c2, s, 2, c3);
    NothingLeft(cfg, c3, s);
  }

  lemma FeedRequestEnd(cfg: Settings, c: Core, bare: bool)
    requires c.state.ReqMinor?
    ensures Feed(cfg, c, LineEnd(bare), 0) == Fed(c.(state := HeaderFieldStart), |LineEnd(bare)|, [], false)
  {
    hide Dispatch, Feed, Slips, SlipsAt;
    var s, c1, c2 := LineEnd(bare), c.(state := ReqLineAlmostDone), c.(state := HeaderFieldStart);
    RequestVersion(cfg, c, CR);
    RequestVersion(cfg, c1, LF);
    if bare {
      FeedQuiet(cfg, c, s, 0, c2);
    } else {
      FeedQuiet(cfg, c, s, 0, c1);
      FeedQuiet(cfg, c1, s, 1, c2);
    }
    NothingLeft(cfg, c2, s);
  }

  /** Feeding a and then b, which hands nothing over. */
  lemma FeedOn(cfg: Settings, c: Core, a: seq<char>, c1: Core, es: seq<Event>, b: seq<char>, c2: Core)
    requires Feed(cfg, c, a, 0) == Fed(c1, |a|, es, false)
    requires Feed(cfg, c1, b, 0) == Fed(c2, |b|, [], false)
    ensures Feed(cfg, c, a + b, 0) == Fed(c2, |a + b|, es, false)
  {
    hide Feed;
    FeedBoth(cfg, c, a, c1, es, b, Fed(c2, |b|, [], false));
    assert es + [] == es;
  }

  lemma FeedRequestLine(cfg: Settings, c: Core, l: StartLine) returns (index: nat)
    requires l.RequestStart? && l.Fits() && l.Expected(c)
    ensures Feed(cfg, c, l.Text(), 0) == Fed(l.Leaves(c, index), |l.Text()|, l.Events(), false)
  {
    hide Dispatch, Feed, Slips, SlipsAt, MethodString, IsUrlState, UrlRun;
    var name, version := MethodString(l.meth) + " ", [l.major, '.', l.minor];
    index := |name|;
    var c1 := Fresh(c).(state := ReqSpacesBeforeUrl, meth := l.meth, index := index);
    FeedMethod(cfg, c, l.meth);
    assert l.target[0..] == l.target;
    FeedTarget(cfg, c1, l.target, 0);
    var c2 := Feed(cfg, c1, l.target, 0).core;
    FeedBoth(cfg, c, name, c1, [MessageBegin], l.target, Feed(cfg, c1, l.target, 0));
    FeedWord(cfg, c2);
    var c3 := c2.(state := ReqFirstMajor);
    FeedOn(cfg, c, name + l.target, c2, l.Events(), " HTTP/", c3);
    FeedVersion(cfg, c3, l.major, l.minor);
    var c4 := c3.(state := ReqMinor, major := DigitValue(l.major), minor := DigitValue(l.minor));
    FeedOn(cfg, c, name + l.target + " HTTP/", c3, l.Events(), version, c4);
    FeedRequestEnd(cfg, c4, l.bare);
    var end := LineEnd(l.bare);
    FeedOn(cfg, c, name + l.target + " HTTP/" + version, c4, l.Events(), end, c4.(state := HeaderFieldStart));
  }

  // ---------------------------------------------------------------- the status line

  lemma ResponseBytes(cfg: Settings, c: Core)
    ensures c.state.StartRes? && c.errno.Ok? ==> Dispatch(cfg, c, 'H') == Note(Fresh(c), ResH, MessageBegin)
    ensures c.state.ResH? ==> Dispatch(cfg, c, 'T') == To(c, ResHT)
    ensures c.state.ResHT? ==> Dispatch(cfg, c, 'T') == To(c, ResHTT)
    ensures c.state.ResHTT? ==> Dispatch(cfg, c, 'P') == To(c, ResHTTP)
    ensures c.state.ResHTTP? ==> Dispatch(cfg, c, '/') == To(c, ResFirstMajor)
  {
  }

  lemma ResponseVersion(cfg: Settings, c: Core, ch: char)
    ensures c.state.ResFirstMajor? && IsNum(ch) ==> Dispatch(cfg, c, ch) == To(c.(major := DigitValue(ch)), ResMajor)
    ensures c.state.ResMajor? ==> Dispatch(cfg, c, '.') == To(c, ResFirstMinor)
    ensures c.state.ResFirstMinor? && IsNum(ch) ==> Dispatch(cfg, c, ch) == To(c.(minor := DigitValue(ch)), ResMinor)
    ensures c.state.ResMinor? ==> Dispatch(cfg, c, ' ') == To(c, ResFirstStatusCode)
  {
  }

  lemma ResponseCode(cfg: Settings, c: Core, ch: char)
    ensures c.state.ResFirstStatusCode? && IsNum(ch) ==>
              Dispatch(cfg, c, ch) == To(c.(status := DigitValue(ch)), ResStatusCode)
    ensures c.state.ResStatusCode? && IsNum(ch) && c.status < 100 ==>
              Dispatch(cfg, c, ch) == To(c.(status := c.status * 10 + DigitValue(ch)), ResStatusCode)
    ensures c.state.ResStatusCode? ==> Dispatch(cfg, c, ' ') == To(c, ResStatusStart)
    ensures IsNum(ch) ==> DigitValue(ch) < 10
  {
  }

  lemma ReasonByte(cfg: Settings, c: Core, ch: char)
    ensures c.state.ResStatusStart? && ch != CR && ch != LF ==>
              Dispatch(cfg, c, ch) == Keep(c.(index := 0), ResStatus, Piece.StatusLine)
    ensures c.state.ResStatus? && ch != CR && ch != LF ==> Dispatch(cfg, c, ch) == Keep(c, ResStatus, Piece.StatusLine)
  {
  }

  lemma ReasonEnd(cfg: Settings, c: Core, ch: char)
    requires ch == CR || ch == LF
    ensures c.state.ResStatusStart? || c.state.ResStatus? ==>
              var o := Dispatch(cfg, c, ch);
              && o.act.Advance? && o.data.None? && o.notes == []
              && o.core == c.(state := if ch == CR then ResLineAlmostDone else HeaderFieldStart)
    ensures c.state.ResLineAlmostDone? && ch == LF ==> Dispatch(cfg, c, ch) == To(c, HeaderFieldStart)
  {
  }

  lemma FeedResponseWord(cfg: Settings, c: Core)
    requires c.state.StartRes? && c.errno.Ok?
    ensures Feed(cfg, c, "HTTP/", 0) == Fed(Fresh(c).(state := ResFirstMajor), 5, [MessageBegin], false)
  {
    hide Dispatch, Feed, Slips, SlipsAt;
    var s := "HTTP/";
    var c1 := Fresh(c).(state := ResH);
    ResponseBytes(cfg, c);
    FeedAdvance(cfg, c, s, 0);
    ResponseBytes(cfg, c1);
    FeedQuiet(cfg, c1, s, 1, c1.(state := ResHT));
    ResponseBytes(cfg, c1.(state := ResHT));
    FeedQuiet(cfg, c1.(state := ResHT), s, 2, c1.(state := ResHTT));
    ResponseBytes(cfg, c1.(state := ResHTT));
    FeedQuiet(cfg, c1.(state := ResHTT), s, 3, c1.(state := ResHTTP));
    ResponseBytes(cfg, c1.(state := ResHTTP));
    FeedQuiet(cfg, c1.(state := ResHTTP), s, 4, c1.(state := ResFirstMajor));
    NothingLeft(cfg, c1.(state := ResFirstMajor), s);
    assert [MessageBegin] + [] == [MessageBegin];
  }

  lemma FeedResponseVersion(cfg: Settings, c: Core, major: char, minor: char)
    requires c.state.ResFirstMajor? && IsNum(major) && IsNum(minor)
    ensures Feed(cfg, c, [major, '.', minor, ' '], 0) ==
            Fed(c.(state := ResFirstStatusCode, major := DigitValue(major), minor := DigitValue(minor)), 4, [], false)
  {
    hide Dispatch, Feed, Slips, SlipsAt;
    var s := [major, '.', minor, ' '];
    var c1 := c.(state := ResMajor, major := DigitValue(major));
    var c2 := c1.(state := ResFirstMinor);
    var c3 := c2.(state := ResMinor, minor := DigitValue(minor));
    var c4 := c3.(state := ResFirstStatusCode);
    ResponseVersion(cfg, c, major);
    FeedQuiet(cfg, c, s, 0, c1);
    ResponseVersion(cfg, c1, '.');
    FeedQuiet(cfg, c1, s, 1, c2);
    ResponseVersion(cfg, c2, minor);
    FeedQuiet(cfg, c2, s, 2, c3);
    ResponseVersion(cfg, c3, ' ');
    FeedQuiet(cfg, c3, s, 3, c4);
    NothingLeft(cfg, c4, s);
  }

  lemma FeedDigits(cfg: Settings, c: Core, code: seq<char>)
    requires c.state.ResFirstStatusCode? && |code| == 3 && IsNum(code[0]) && IsNum(code[1]) && IsNum(code[2])
    ensures var n := (DigitValue(code[0]) * 10 + DigitValue(code[1])) * 10 + DigitValue(code[2]);
            Feed(cfg, c, code, 0) == Fed(c.(state := ResStatusCode, status := n), 3, [], false)
  {
    hide Dispatch, Feed, Slips, SlipsAt, DigitValue, IsNum;
    var c1 := c.(state := ResStatusCode, status := DigitValue(code[0]));
    var c2 := c1.(status := c1.status * 10 + DigitValue(code[1]));
    var c3 := c2.(status := c2.status * 10 + DigitValue(code[2]));
    ResponseCode(cfg, c, code[0]);
    FeedQuiet(cfg, c, code, 0, c1);
    ResponseCode(cfg, c1, code[1]);
    FeedQuiet(cfg, c1, code, 1, c2);
    ResponseCode(cfg, c2, code[2]);
    FeedQuiet(cfg, c2, code, 2, c3);
    NothingLeft(cfg, c3, code);
  }

  lemma FeedCode(cfg: Settings, c: Core, code: seq<char>)
    requires c.state.ResFirstStatusCode? && |code| == 3 && IsNum(code[0]) && IsNum(code[1]) && IsNum(code[2])
    ensures var n := (DigitValue(code[0]) * 10 + DigitValue(code[1])) * 10 + DigitValue(code[2]);
            Feed(cfg, c, code + " ", 0) == Fed(c.(state := ResStatusStart, status := n), 4, [], false)
  {
    hide Dispatch, Feed, Slips, SlipsAt, DigitValue, IsNum;
    FeedDigits(cfg, c, code);
    var c1 := Feed(cfg, c, code, 0).core;
    var c2 := c1.(state := ResStatusStart);
    ResponseCode(cfg, c1, ' ');
    FeedQuiet(cfg, c1, " ", 0, c2);
    NothingLeft(cfg, c2, " ");
    FeedOn(cfg, c, code, c1, [], " ", c2);
  }

  lemma {:induction false} FeedReasonTail(cfg: Settings, c: Core, reason: seq<char>, p: nat)
    requires c.state.ResStatus? && p <= |reason| && CR !in reason && LF !in reason
    ensures Feed(cfg, c, reason, p) == Fed(c, |reason|, DataEvents(Piece.StatusLine, reason[p..]), false)
    decreases |reason| - p
  {
    hide Dispatch, Feed, Slips, SlipsAt;
    if p == |reason| {
      NothingLeft(cfg, c, reason);
    } else {
      ReasonByte(cfg, c, reason[p]);
      FeedAdvance(cfg, c, reason, p);
      FeedReasonTail(cfg, c, reason, p + 1);
      DataFirst(Piece.StatusLine, reason, p);
    }
  }

  lemma FeedReason(cfg: Settings, c: Core, reason: seq<char>)
    requires c.state.ResStatusStart? && CR !in reason && LF !in reason
    ensures var c1 := if reason == [] then c else c.(state := ResStatus, index := 0);
            Feed(cfg, c, reason, 0) == Fed(c1, |reason|, DataEvents(Piece.StatusLine, reason), false)
  {
    hide Dispatch, Feed, Slips, SlipsAt, DataEvents;
    if reason == [] {
      NothingLeft(cfg, c, reason);
      assert DataEvents(Piece.StatusLine, reason) == [];
    } else {
      ReasonByte(cfg, c, reason[0]);
      FeedAdvance(cfg, c, reason, 0);
      FeedReasonTail(cfg, c.(state := ResStatus, index := 0), reason, 1);
      assert reason[0..] == reason;
      DataFirst(Piece.StatusLine, reason, 0);
    }
  }

  lemma FeedResponseEnd(cfg: Settings, c: Core, bare: bool)
    requires c.state.ResStatusStart? || c.state.ResStatus?
    ensures Feed(cfg, c, LineEnd(bare), 0) == Fed(c.(state := HeaderFieldStart), |LineEnd(bare)|, [], false)
  {
    hide Dispatch, Feed, Slips, SlipsAt;
    var s, c1, c2 := LineEnd(bare), c.(state := ResLineAlmostDone), c.(state := HeaderFieldStart);
    ReasonEnd(cfg, c, s[0]);
    ReasonEnd(cfg, c1, LF);
    if bare {
      FeedQuiet(cfg, c, s, 0, c2);
    } else {
      FeedQuiet(cfg, c, s, 0, c1);
      FeedQuiet(cfg, c1, s, 1, c2);
    }
    NothingLeft(cfg, c2, s);
  }

  lemma FeedStatusLine(cfg: Settings, c: Core, l: StartLine) returns (index: nat)
    requires l.ResponseStart? && l.Fits() && l.Expected(c)
    ensures Feed(cfg, c, l.Text(), 0) == Fed(l.Leaves(c, index), |l.Text()|, l.Events(), false)
  {
    hide Dispatch, Feed, Slips, SlipsAt, DigitValue;
    var begun, version, code := [MessageBegin], [l.major, '.', l.minor, ' '], l.code + " ";
    var head := "HTTP/" + version;
    var c1 := Fresh(c).(state := ResFirstMajor);
    FeedResponseWord(cfg, c);
    FeedResponseVersion(cfg, c1, l.major, l.minor);
    var c2 := c1.(state := ResFirstStatusCode, major := DigitValue(l.major), minor := DigitValue(l.minor));
    FeedOn(cfg, c, "HTTP/", c1, begun, version, c2);
    FeedCode(cfg, c2, l.code);
    var c3 := Feed(cfg, c2, code, 0).core;
    FeedOn(cfg, c, head, c2, begun, code, c3);
    FeedReason(cfg, c3, l.reason);
    var f := Feed(cfg, c3, l.reason, 0);
    FeedBoth(cfg, c, head + code, c3, begun, l.reason, f);
    FeedResponseEnd(cfg, f.core, l.bare);
    FeedOn(cfg, c, head + code + l.reason, f.core, l.Events(), LineEnd(l.bare), f.core.(state := HeaderFieldStart));
    assert l.Text() == head + code + l.reason + LineEnd(l.bare);
    index := f.core.index;
  }

  /** The first line of a message: its parts are handed over, and the parser holds what they say. */
  lemma FeedStartLine(cfg: Settings, c: Core, l: StartLine) returns (index: nat)
    requires l.Fits() && l.Expected(c)
    ensures Feed(cfg, c, l.Text(), 0) == Fed(l.Leaves(c, index), |l.Text()|, l.Events(), false)
  {
    hide Feed, StartLine.Fits, StartLine.Text, StartLine.Events, StartLine.Leaves, StartLine.Expected;
    if l.RequestStart? {
      index := FeedRequestLine(cfg, c, l);
    } else {
      index := FeedStatusLine(cfg, c, l);
    }
  }
}

/**
 * Whole header lines, from the first byte of the name to the line end, and the choice of the body's framing at the
 * end of the headers: what the matchers for names, values and numbers come to together.
 */
module HttpHeaders {
  import opened Basics
  import opened HttpChars
  import opened HttpParserTypes
  import opened HttpParserStep
  import opened HttpParserFeed
  import opened HttpHeaderNames
  import opened HttpHeaderValues
  import opened HttpNumbers

  // ---------------------------------------------------------------- the meaning of a line

  predicate IsConnection(n: seq<char>) {
    n == CONNECTION || n == PROXY_CONNECTION
  }

  predicate IsWhite(ws: seq<char>) {
    forall i :: 0 <= i < |ws| ==> ws[i] == ' ' || ws[i] == '\t'
  }

  /** A line ends with CRLF, or with a bare LF. */
  function LineEnd(bare: bool): seq<char> {
    if bare then [LF] else CRLF
  }

  /** A header line whose value, if there is one, stands on that line. */
  datatype Line = Line(name: seq<char>, ws: seq<char>, v: seq<char>, bare: bool) {
    predicate Fits(lenient: bool) {
      IsName(name) && IsWhite(ws) && (v == [] || (Starts(v) && IsValue(lenient, v)))
    }

    function Text(): seq<char> {
      name + ":" + ws + v + LineEnd(bare)
    }

    /** What is handed over of it. */
    function Events(): seq<Event> {
      DataEvents(Field, name) + DataEvents(Value, v)
    }

    predicate Is(n: seq<char>) {
      LowerCase(name) == n
    }
  }

  predicate IsNumber(v: seq<char>) {
    forall i :: 0 <= i < |v| ==> IsNum(v[i]) || v[i] == ' '
  }

  /** Whether a value may stand in the header of the lower-cased name n: a length has to be the first, and a number. */
  predicate Acceptable(f: Flags, n: seq<char>, v: seq<char>) {
    n == CONTENT_LENGTH && v != [] ==>
      && !f.contentLength && IsNum(v[0])
      && IsNumber(v) && LengthFits(0, v)
  }

  /** The flags behind the header. */
  function LineFlags(f: Flags, n: seq<char>, v: seq<char>): Flags {
    if v == [] then f
    else if n == TRANSFER_ENCODING then f.(chunked := f.chunked || Names(v, CHUNKED))
    else if IsConnection(n) then WithOptions(f, Heard(OptionsOf(v), true))
    else if n == UPGRADE then f.(upgrade := true)
    else if n == CONTENT_LENGTH then f.(contentLength := true)
    else f
  }

  /** The declared length behind the header. */
  function LineLength(length: nat, n: seq<char>, v: seq<char>): nat {
    if n == CONTENT_LENGTH && v != [] && IsNumber(v) then Decimal(0, v) else length
  }

  // ---------------------------------------------------------------- the pieces of a line

  lemma ColonByte(cfg: Settings, c: Core)
    requires c.state.HeaderField?
    ensures Dispatch(cfg, c, ':') == Flush(c, HeaderValueDiscardWs, Field)
  {
  }

  lemma WhiteByte(cfg: Settings, c: Core, ch: char)
    requires c.state.HeaderValueDiscardWs? && (ch == ' ' || ch == '\t')
    ensures Dispatch(cfg, c, ch) == To(c, HeaderValueDiscardWs)
  {
  }

  lemma {:induction false} FeedWhite(cfg: Settings, c: Core, ws: seq<char>, p: nat)
    requires c.state.HeaderValueDiscardWs? && p <= |ws| && IsWhite(ws)
    ensures Feed(cfg, c, ws, p) == Fed(c, |ws|, [], false)
    decreases |ws| - p
  {
    hide Dispatch, Feed, Slips, SlipsAt;
    if p == |ws| {
      NothingLeft(cfg, c, ws);
    } else {
      WhiteByte(cfg, c, ws[p]);
      FeedAdvance(cfg, c, ws, p);
      FeedWhite(cfg, c, ws, p + 1);
    }
  }

  lemma FeedColon(cfg: Settings, c: Core)
    requires c.state.HeaderField?
    ensures Feed(cfg, c, ":", 0) == Fed(c.(state := HeaderValueDiscardWs), 1, [], false)
  {
    hide Dispatch, Feed, Slips, SlipsAt;
    ColonByte(cfg, c);
    FeedAdvance(cfg, c, ":", 0);
    NothingLeft(cfg, c.(state := HeaderValueDiscardWs), ":");
  }

  /** The name, the colon and the white space behind it. */
  lemma FeedHead(cfg: Settings, c: Core, name: seq<char>, ws: seq<char>)
    requires IsName(name) && c.state.HeaderFieldStart? && IsWhite(ws)
    ensures var f := Feed(cfg, c, name + ":" + ws, 0);
            && Recognises(f.core.header, LowerCase(name)) && IsFieldHState(f.core.header)
            && f == Fed(c.(state := HeaderValueDiscardWs, header := f.core.header, index := f.core.index),
                        |name + ":" + ws|, DataEvents(Field, name), false)
  {
    hide Dispatch, Feed, Slips, SlipsAt, Recognises;
    NameRecognised(cfg, c, name);
    var c1 := Feed(cfg, c, name, 0).core;
    var c2 := c1.(state := HeaderValueDiscardWs);
    FeedColon(cfg, c1);
    FeedBoth(cfg, c, name, c1, DataEvents(Field, name), ":", Fed(c2, 1, [], false));
    FeedWhite(cfg, c2, ws, 0);
    assert DataEvents(Field, name) + [] == DataEvents(Field, name);
    FeedBoth(cfg, c, name + ":", c2, DataEvents(Field, name), ws, Fed(c2, |ws|, [], false));
  }

  /** What a value comes to: the flags and the length of the header behind it. */
  predicate Means(cfg: Settings, c: Core, v: seq<char>, flags: Flags, length: nat) {
    var f := Feed(cfg, c, v, 0);
    && !f.stopped && f.events == DataEvents(Value, v)
    && f.core.contentLength == length && FinishHeader(f.core.flags, f.core.header) == flags
    && f.core == c.(state := HeaderValue, header := f.core.header, index := f.core.index, flags := f.core.flags,
                    contentLength := f.core.contentLength)
  }

  lemma PlainStart(c: Core, ch: char)
    requires !c.header.TransferEncoding? && !c.header.ContentLength? && !c.header.Connection? && IsFieldHState(c.header)
    ensures ValueStart(c, ch) ==
            Keep(c.(index := 0, header := General,
                    flags := if c.header.Upgrade? then c.flags.(upgrade := true) else c.flags), HeaderValue, Value)
  {
  }

  /** A value that is not looked at. */
  lemma PlainValue(cfg: Settings, c: Core, v: seq<char>)
    requires c.state.HeaderValueDiscardWs? && Starts(v) && IsValue(c.lenient, v)
    requires !c.header.TransferEncoding? && !c.header.ContentLength? && !c.header.Connection? && IsFieldHState(c.header)
    ensures Means(cfg, c, v, if c.header.Upgrade? then c.flags.(upgrade := true) else c.flags, c.contentLength)
  {
    hide Dispatch, Feed, Slips, SlipsAt, IsValue, ValueStart;
    Begun(cfg, c, v);
    PlainStart(c, v[0]);
    var c1 := ValueStart(c, v[0]).core;
    FeedUnheard(cfg, c1, v, 1);
    ComesOn(cfg, c, c1, v, 0, c1.flags);
  }

  lemma LengthMeans(cfg: Settings, c: Core, v: seq<char>)
    requires c.state.HeaderValueDiscardWs? && Starts(v) && IsValue(c.lenient, v) && c.errno.Ok?
    requires c.header.ContentLength?
    ensures var f := Feed(cfg, c, v, 0);
            if Acceptable(c.flags, CONTENT_LENGTH, v) then
              Means(cfg, c, v, c.flags.(contentLength := true), Decimal(0, v))
            else f.stopped && !f.core.errno.Ok?
  {
    hide Feed, Slips, LengthFits, Decimal;
    WholeLength(cfg, c, v);
  }

  /** A value, under the header of its name. */
  lemma ValueMeans(cfg: Settings, c: Core, n: seq<char>, v: seq<char>)
    requires c.state.HeaderValueDiscardWs? && Starts(v) && IsValue(c.lenient, v) && c.errno.Ok?
    requires Recognises(c.header, n) && IsFieldHState(c.header)
    requires v != []
    ensures if Acceptable(c.flags, n, v)
            then Means(cfg, c, v, LineFlags(c.flags, n, v), LineLength(c.contentLength, n, v))
            else Feed(cfg, c, v, 0).stopped && !Feed(cfg, c, v, 0).core.errno.Ok?
  {
    hide Feed, Slips, IsValue, Names, WithOptions, Heard, OptionsOf, LengthFits, Decimal;
    if n == CONTENT_LENGTH {
      LengthMeans(cfg, c, v);
    } else if n == TRANSFER_ENCODING {
      ChunkedRecognised(cfg, c, v);
    } else if IsConnection(n) {
      OptionsRecognised(cfg, c, v);
    } else {
      PlainValue(cfg, c, v);
    }
  }

  lemma LineEndBytes(cfg: Settings, c: Core)
    ensures c.state.HeaderValue? ==> Dispatch(cfg, c, CR) == Flush(c, HeaderAlmostDone, Value)
    ensures c.state.HeaderValue? ==>
              Dispatch(cfg, c, LF) == Out(c.(state := HeaderAlmostDone), Again, None, Some(Value), [], false)
    ensures c.state.HeaderAlmostDone? ==> Dispatch(cfg, c, LF) == To(c, HeaderValueLws)
    ensures c.state.HeaderValueDiscardWs? ==> Dispatch(cfg, c, CR) == To(c, HeaderValueDiscardWsAlmostDone)
    ensures c.state.HeaderValueDiscardWs? ==> Dispatch(cfg, c, LF) == To(c, HeaderValueDiscardLws)
    ensures c.state.HeaderValueDiscardWsAlmostDone? ==> Dispatch(cfg, c, LF) == To(c, HeaderValueDiscardLws)
  {
  }

  /** The first byte behind a line end. */
  lemma NextBytes(cfg: Settings, c: Core, next: char)
    requires (c.state.HeaderValueLws? || c.state.HeaderValueDiscardLws?) && next != ' ' && next != '\t'
    ensures Dispatch(cfg, c, next) == Retry(c.(flags := FinishHeader(c.flags, c.header)), HeaderFieldStart)
  {
    hide FinishHeader;
  }

  lemma FeedLineEnd(cfg: Settings, c: Core, bare: bool)
    requires c.state.HeaderValue? || c.state.HeaderValueDiscardWs?
    ensures var s := if c.state.HeaderValue? then HeaderValueLws else HeaderValueDiscardLws;
            Feed(cfg, c, LineEnd(bare), 0) == Fed(c.(state := s), |LineEnd(bare)|, [], false)
  {
    hide Dispatch, Feed, Slips, SlipsAt;
    var end := LineEnd(bare);
    var c1 := c.(state := if c.state.HeaderValue? then HeaderAlmostDone else HeaderValueDiscardWsAlmostDone);
    var c2 := c.(state := if c.state.HeaderValue? then HeaderValueLws else HeaderValueDiscardLws);
    LineEndBytes(cfg, c);
    LineEndBytes(cfg, c1);
    if !bare {
      FeedAdvance(cfg, c, end, 0);
      FeedAdvance(cfg, c1, end, 1);
    } else if c.state.HeaderValue? {
      FeedAgain(cfg, c, end, 0);
      FeedAdvance(cfg, c1, end, 0);
    } else {
      FeedAdvance(cfg, c, end, 0);
    }
    NothingLeft(cfg, c2, end);
  }

  lemma OptionsKeep(f: Flags, options: seq<seq<char>>)
    ensures var g := WithOptions(f, options); g.trailing == f.trailing && g.skipBody == f.skipBody
  {
    hide Named;
  }

  lemma TrailerStays(f: Flags, n: seq<char>, v: seq<char>)
    ensures LineFlags(f, n, v).trailing == f.trailing && LineFlags(f, n, v).skipBody == f.skipBody
  {
    hide Heard, OptionsOf, Names, WithOptions;
    if v != [] {
      OptionsKeep(f, Heard(OptionsOf(v), true));
    }
  }

  // ---------------------------------------------------------------- lines

  /** The next line begins: the flags of the header before it are set, and the length is. */
  predicate GoesOnWith(o: Out, c: Core, flags: Flags, length: nat) {
    && o.act.Again? && o.data.None? && o.notes == []
    && o.core == c.(state := HeaderFieldStart, header := o.core.header, index := o.core.index, flags := flags,
                    contentLength := length)
  }

  /** Behind the end of a line, before it is clear whether the value goes on. */
  predicate AtLineEnd(c: Core, begun: Core) {
    (c.state.HeaderFieldStart? || c.state.HeaderValueLws? || c.state.HeaderValueDiscardLws?) &&
    c.errno == begun.errno && c.flags.trailing == begun.flags.trailing
  }

  lemma FinishKeeps(f: Flags, h: HState)
    ensures FinishHeader(f, h).trailing == f.trailing
  {
  }

  lemma ValueLine(cfg: Settings, c: Core, l: Line, next: char)
    requires c.state.HeaderFieldStart? && c.errno.Ok? && l.Fits(c.lenient) && l.v != []
    requires next != ' ' && next != '\t'
    ensures var f := Feed(cfg, c, l.Text(), 0); var n := LowerCase(l.name);
            if Acceptable(c.flags, n, l.v) then
              && !f.stopped && f.events == l.Events() && AtLineEnd(f.core, c)
              && GoesOnWith(Dispatch(cfg, f.core, next), c, LineFlags(c.flags, n, l.v),
                            LineLength(c.contentLength, n, l.v))
            else f.stopped && !f.core.errno.Ok?
  {
    hide Dispatch, Feed, Slips, Recognises, IsValue, LineFlags, LineLength, Acceptable, LowerCase, FinishHeader;
    var n, head, end := LowerCase(l.name), l.name + ":" + l.ws, LineEnd(l.bare);
    FeedHead(cfg, c, l.name, l.ws);
    var c1 := Feed(cfg, c, head, 0).core;
    ValueMeans(cfg, c1, n, l.v);
    var f := Feed(cfg, c1, l.v, 0);
    FeedBoth(cfg, c, head, c1, DataEvents(Field, l.name), l.v, f);
    if Acceptable(c.flags, n, l.v) {
      FeedLineEnd(cfg, f.core, l.bare);
      var c2 := f.core.(state := HeaderValueLws);
      FeedBoth(cfg, c, head + l.v, f.core, l.Events(), end, Fed(c2, |end|, [], false));
      assert l.Events() + [] == l.Events();
      NextBytes(cfg, c2, next);
      FinishKeeps(c2.flags, c2.header);
      TrailerStays(c.flags, n, l.v);
    } else {
      Segmentation(cfg, c, head + l.v, end, 0);
    }
  }

  lemma NothingFinished(f: Flags, h: HState)
    requires IsFieldHState(h)
    ensures FinishHeader(f, h) == f
  {
  }

  /** A line without a value sets nothing. */
  lemma EmptyLine(cfg: Settings, c: Core, l: Line, next: char)
    requires c.state.HeaderFieldStart? && l.Fits(c.lenient) && l.v == [] && next != ' ' && next != '\t'
    ensures var f := Feed(cfg, c, l.Text(), 0);
            !f.stopped && f.events == DataEvents(Field, l.name) && AtLineEnd(f.core, c) &&
            GoesOnWith(Dispatch(cfg, f.core, next), c, c.flags, c.contentLength)
  {
    hide Dispatch, Feed, Slips, Recognises, LowerCase, FinishHeader;
    var head, end := l.name + ":" + l.ws, LineEnd(l.bare);
    assert head + l.v == head;
    FeedHead(cfg, c, l.name, l.ws);
    var c1 := Feed(cfg, c, head, 0).core;
    var c2 := c1.(state := HeaderValueDiscardLws);
    FeedLineEnd(cfg, c1, l.bare);
    FeedBoth(cfg, c, head, c1, DataEvents(Field, l.name), end, Fed(c2, |end|, [], false));
    assert DataEvents(Field, l.name) + [] == DataEvents(Field, l.name);
    NextBytes(cfg, c2, next);
    NothingFinished(c1.flags, c1.header);
  }

  /**
   * A whole header line: it is rejected exactly when it is a length that is no number of 64 bits, or not the first;
   * otherwise its name and value are handed over, and it sets the flags and the length that they say, and no other
   * field of the parser, before the first byte of the next line is looked at.
   */
  lemma HeaderLine(cfg: Settings, c: Core, l: Line, next: char)
    requires c.state.HeaderFieldStart? && c.errno.Ok? && l.Fits(c.lenient) && next != ' ' && next != '\t'
    ensures var f := Feed(cfg, c, l.Text(), 0); var n := LowerCase(l.name);
            if Acceptable(c.flags, n, l.v) then
              && !f.stopped && f.events == l.Events() && AtLineEnd(f.core, c)
              && GoesOnWith(Dispatch(cfg, f.core, next), c, LineFlags(c.flags, n, l.v),
                            LineLength(c.contentLength, n, l.v))
            else f.stopped && !f.core.errno.Ok?
  {
    hide Dispatch, Feed, Slips, Line.Fits, Line.Text, LowerCase, GoesOnWith, AtLineEnd;
    if l.v == [] {
      EmptyLine(cfg, c, l, next);
      assert DataEvents(Value, l.v) == [];
      assert l.Events() == DataEvents(Field, l.name);
    } else {
      ValueLine(cfg, c, l, next);
    }
  }

  // ---------------------------------------------------------------- the header as a whole

  function Texts(lines: seq<Line>): seq<char> {
    if lines == [] then [] else lines[0].Text() + Texts(lines[1..])
  }

  function LinesEvents(lines: seq<Line>): seq<Event> {
    if lines == [] then [] else lines[0].Events() + LinesEvents(lines[1..])
  }

  predicate AllFit(lines: seq<Line>, lenient: bool) {
    forall i :: 0 <= i < |lines| ==> lines[i].Fits(lenient)
  }

  predicate AllAcceptable(f: Flags, lines: seq<Line>)
    decreases |lines|
  {
    lines == [] ||
    (Acceptable(f, LowerCase(lines[0].name), lines[0].v) &&
     AllAcceptable(LineFlags(f, LowerCase(lines[0].name), lines[0].v), lines[1..]))
  }

  /** The flags and the length behind all the lines. */
  function Told(f: Flags, length: nat, lines: seq<Line>): (Flags, nat)
    requires AllAcceptable(f, lines)
    decreases |lines|
  {
    if lines == [] then (f, length)
    else
      var n := LowerCase(lines[0].name);
      Told(LineFlags(f, n, lines[0].v), LineLength(length, n, lines[0].v), lines[1..])
  }

  lemma TokenIsNoSpace(ch: char)
    requires IsToken(ch)
    ensures ch != ' ' && ch != '\t'
  {
  }

  lemma NameStarts(name: seq<char>)
    requires IsName(name)
    ensures name != [] && name[0] != ' ' && name[0] != '\t'
  {
    TokenIsNoSpace(name[0]);
  }

  /** No line begins with a space. */
  lemma FirstText(lines: seq<Line>, lenient: bool)
    requires AllFit(lines, lenient) && lines != []
    ensures var text := Texts(lines); text != [] && text[0] != ' ' && text[0] != '\t'
  {
    assert lines[0].Fits(lenient);
    NameStarts(lines[0].name);
    assert lines[0].Text()[0] == lines[0].name[0];
  }

  lemma TextsStart(lines: seq<Line>, lenient: bool, rest: seq<char>)
    requires AllFit(lines, lenient) && rest != [] && rest[0] != ' ' && rest[0] != '\t'
    ensures var text := Texts(lines) + rest; text != [] && text[0] != ' ' && text[0] != '\t'
  {
    if lines == [] {
      assert Texts(lines) + rest == rest;
    } else {
      FirstText(lines, lenient);
    }
  }

  /** The lines of a header, in front of what does not go on with the last of them. */
  lemma {:induction false} FeedLines(cfg: Settings, c: Core, lines: seq<Line>, rest: seq<char>) returns (c': Core)
    requires c.state.HeaderFieldStart? && c.errno.Ok? && AllFit(lines, c.lenient)
    requires rest != [] && rest[0] != ' ' && rest[0] != '\t'
    ensures AllAcceptable(c.flags, lines) ==>
              var f, t := Feed(cfg, c', rest, 0), Told(c.flags, c.contentLength, lines);
              && Feed(cfg, c, Texts(lines) + rest, 0) ==
                 Fed(f.core, |Texts(lines)| + f.used, LinesEvents(lines) + f.events, f.stopped)
              && c' == c.(header := c'.header, index := c'.index, flags := t.0, contentLength := t.1)
    ensures !AllAcceptable(c.flags, lines) ==>
              var f := Feed(cfg, c, Texts(lines) + rest, 0); f.stopped && !f.core.errno.Ok?
    decreases |lines|
  {
    hide Dispatch, Feed, Slips, LineFlags, LineLength, Acceptable, LowerCase, Line.Text, Line.Events;
    if lines == [] {
      c' := c;
      assert Texts(lines) + rest == rest;
      AfterNothing(Feed(cfg, c, rest, 0));
    } else {
      var l, more := lines[0], Texts(lines[1..]) + rest;
      assert l.Fits(c.lenient) && AllFit(lines[1..], c.lenient);
      TextsStart(lines[1..], c.lenient, rest);
      HeaderLine(cfg, c, l, more[0]);
      assert Texts(lines) + rest == l.Text() + more;
      Segmentation(cfg, c, l.Text(), more, 0);
      if Acceptable(c.flags, LowerCase(l.name), l.v) {
        var c1 := Feed(cfg, c, l.Text(), 0).core;
        var o := Dispatch(cfg, c1, more[0]);
        FeedAgain(cfg, c1, more, 0);
        AfterNothing(Feed(cfg, o.core, more, 0));
        c' := FeedLines(cfg, o.core, lines[1..], rest);
        assert AllAcceptable(c.flags, lines) ==>
            l.Events() + (LinesEvents(lines[1..]) + Feed(cfg, c', rest, 0).events) ==
            LinesEvents(lines) + Feed(cfg, c', rest, 0).events;
      } else {
        c' := c;
      }
    }
  }

  /** The lines on their own. */
  lemma {:induction false} LinesEnd(cfg: Settings, c: Core, lines: seq<Line>)
    requires c.state.HeaderFieldStart? && c.errno.Ok? && AllFit(lines, c.lenient) && AllAcceptable(c.flags, lines)
    ensures var f := Feed(cfg, c, Texts(lines), 0); !f.stopped && AtLineEnd(f.core, c)
    decreases |lines|
  {
    hide Dispatch, Feed, Slips, LineFlags, LineLength, Acceptable, LowerCase, Line.Text, Line.Events;
    if lines == [] {
      NothingLeft(cfg, c, []);
    } else {
      var l, more := lines[0], Texts(lines[1..]);
      assert l.Fits(c.lenient) && AllFit(lines[1..], c.lenient);
      if lines[1..] == [] {
        HeaderLine(cfg, c, l, 'a');
        assert l.Text() + [] == l.Text();
      } else {
        FirstText(lines[1..], c.lenient);
        HeaderLine(cfg, c, l, more[0]);
        Segmentation(cfg, c, l.Text(), more, 0);
        var c1 := Feed(cfg, c, l.Text(), 0).core;
        FeedAgain(cfg, c1, more, 0);
        TrailerStays(c.flags, LowerCase(l.name), l.v);
        LinesEnd(cfg, Dispatch(cfg, c1, more[0]).core, lines[1..]);
      }
    }
  }

  /** The parser at the end of the headers, before the application is asked. */
  function Ended(c: Core): Core {
    c.(state := HeadersDone, upgrade := (c.flags.upgrade && c.flags.connectionUpgrade) || c.meth.CONNECT?)
  }

  /** And when the application has answered. */
  function Answered(cfg: Settings, c: Core): Core {
    var d := Ended(c);
    if cfg(d) == 0 then d
    else if cfg(d) == 1 then d.(flags := d.flags.(skipBody := true))
    else d.(flags := d.flags.(skipBody := true), upgrade := true)
  }

  /** The empty line is accepted: not with a length and a chunked coding at once, nor with a verdict that is none. */
  predicate Ends(cfg: Settings, c: Core) {
    !(c.flags.chunked && c.flags.contentLength) && 0 <= cfg(Ended(c)) <= 2
  }

  lemma EmptyLineBytes(cfg: Settings, c: Core)
    requires c.errno.Ok? && !c.flags.trailing
    ensures c.state.HeaderFieldStart? ==> Dispatch(cfg, c, CR) == To(c, HeadersAlmostDone)
    ensures c.state.HeaderFieldStart? ==> Dispatch(cfg, c, LF) == Retry(c, HeadersAlmostDone)
    ensures c.state.HeadersAlmostDone? ==>
              var o := Dispatch(cfg, c, LF);
              if Ends(cfg, c) then o == Out(Answered(cfg, c), Again, None, None, [HeadersComplete], false)
              else o.act.Fail? && !o.core.errno.Ok?
  {
  }

  lemma DoneStays(cfg: Settings, c: Core)
    requires c.state.HeadersDone?
    ensures var o := Dispatch(cfg, c, LF); !o.act.Again? && !o.act.Fail? && o.data.None?
  {
  }

  lemma AnsweredDone(cfg: Settings, c: Core)
    ensures Answered(cfg, c).state.HeadersDone?
  {
  }

  /** The LF of the empty line, which ends the headers and chooses the framing of the body. */
  lemma FeedLastLf(cfg: Settings, c: Core, data: seq<char>, p: nat)
    requires c.state.HeadersAlmostDone? && c.errno.Ok? && !c.flags.trailing && p + 1 == |data| && data[p] == LF
    ensures var f := Feed(cfg, c, data, p);
            if Ends(cfg, c) then
              var o := Dispatch(cfg, Answered(cfg, c), LF);
              f == Fed(o.core, |data|, [HeadersComplete] + o.notes, o.act.Exit?)
            else f.stopped && !f.core.errno.Ok?
  {
    hide Dispatch, Feed, Slips, SlipsAt, Ends, Answered;
    EmptyLineBytes(cfg, c);
    if Ends(cfg, c) {
      var d := Answered(cfg, c);
      var o := Dispatch(cfg, d, LF);
      FeedAgain(cfg, c, data, p);
      AnsweredDone(cfg, c);
      DoneStays(cfg, d);
      if o.act.Exit? {
        FeedExit(cfg, d, data, p);
      } else {
        FeedAdvance(cfg, d, data, p);
        NothingLeft(cfg, o.core, data);
        assert o.notes + [] == o.notes;
      }
      assert [] + o.notes == o.notes;
    } else {
      FeedFail(cfg, c, data, p);
    }
  }

  /** The empty line: the headers are complete, and the body's framing is chosen at its LF. */
  lemma FeedEmptyLine(cfg: Settings, c: Core, bare: bool)
    requires c.state.HeaderFieldStart? && c.errno.Ok? && !c.flags.trailing
    ensures var f, c1 := Feed(cfg, c, LineEnd(bare), 0), c.(state := HeadersAlmostDone);
            if Ends(cfg, c1) then
              var o := Dispatch(cfg, Answered(cfg, c1), LF);
              f == Fed(o.core, |LineEnd(bare)|, [HeadersComplete] + o.notes, o.act.Exit?)
            else f.stopped && !f.core.errno.Ok?
  {
    hide Dispatch, Feed, Slips, SlipsAt, Ends, Answered;
    var end, c1 := LineEnd(bare), c.(state := HeadersAlmostDone);
    EmptyLineBytes(cfg, c);
    if bare {
      FeedAgain(cfg, c, end, 0);
      FeedLastLf(cfg, c1, end, 0);
      AfterNothing(Feed(cfg, c1, end, 0));
    } else {
      FeedAdvance(cfg, c, end, 0);
      FeedLastLf(cfg, c1, end, 1);
      AfterNothing(Feed(cfg, c1, end, 1));
    }
  }

  lemma {:induction false} NoTrailer(f: Flags, length: nat, lines: seq<Line>)
    requires AllAcceptable(f, lines)
    ensures var t := Told(f, length, lines); t.0.trailing == f.trailing && t.0.skipBody == f.skipBody
    decreases |lines|
  {
    hide LowerCase, LineFlags, Acceptable, LineLength;
    if lines != [] {
      var n := LowerCase(lines[0].name);
      TrailerStays(f, n, lines[0].v);
      NoTrailer(LineFlags(f, n, lines[0].v), LineLength(length, n, lines[0].v), lines[1..]);
    }
  }

  /** What all the lines leave the parser with, when it comes to the end of the headers. */
  predicate Leads(c: Core, lines: seq<Line>, d: Core)
    requires AllAcceptable(c.flags, lines)
  {
    var t := Told(c.flags, c.contentLength, lines);
    d == c.(state := HeadersAlmostDone, header := d.header, index := d.index, flags := t.0, contentLength := t.1)
  }

  /**
   * A whole header, any number of lines and the empty one: rejected exactly when a line is, or a length stands beside a
   * chunked coding, or the application's verdict is none. Otherwise everything is handed over, and the parser is where
   * the end of the headers takes it from the flags and the length that the lines say.
   */
  lemma FeedHeader(cfg: Settings, c: Core, lines: seq<Line>, bare: bool) returns (d: Core)
    requires c.state.HeaderFieldStart? && c.errno.Ok? && !c.flags.trailing && AllFit(lines, c.lenient)
    ensures var f := Feed(cfg, c, Texts(lines) + LineEnd(bare), 0);
            if AllAcceptable(c.flags, lines) && Ends(cfg, d) then
              var o := Dispatch(cfg, Answered(cfg, d), LF);
              f == Fed(o.core, |Texts(lines) + LineEnd(bare)|, LinesEvents(lines) + ([HeadersComplete] + o.notes),
                       o.act.Exit?)
            else f.stopped && !f.core.errno.Ok?
    ensures AllAcceptable(c.flags, lines) ==> Leads(c, lines, d)
  {
    hide Dispatch, Feed, Slips, AllFit, Ends, Answered, Told, AllAcceptable;
    var c' := FeedLines(cfg, c, lines, LineEnd(bare));
    d := c'.(state := HeadersAlmostDone);
    if AllAcceptable(c.flags, lines) {
      NoTrailer(c.flags, c.contentLength, lines);
      FeedEmptyLine(cfg, c', bare);
    }
  }
}

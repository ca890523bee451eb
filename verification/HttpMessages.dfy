/**
 * Whole messages, from the first line to the end of the body, written as the standard says and cut into segments
 * anywhere.
 */
module HttpMessages {
  import opened Basics
  import opened HttpChars
  import opened HttpParserTypes
  import opened HttpParserStep
  import opened HttpParserFeed
  import opened HttpParserCount
  import opened HttpParserInvariant
  import opened HttpParserExecute
  import opened HttpFraming
  import opened HttpHeaders
  import opened HttpHeaderFraming
  import opened HttpStartLines
  import opened HttpPersistence
  import opened HttpDelivery

  /** A body as it is written: the bytes themselves, or in chunks. */
  datatype Payload = ByItself(bytes: seq<char>) | InChunks(chunks: seq<ChunkText>, last: ChunkText) {
    function Text(): seq<char> {
      match this
      case ByItself(bytes) => bytes
      case InChunks(chunks, last) => Coded(chunks, last)
    }

    /** What the body is. */
    function Bytes(): seq<char> {
      match this
      case ByItself(bytes) => bytes
      case InChunks(chunks, _) => Concat(Datas(chunks))
    }

    /** Written in this framing. */
    predicate Follows(framing: Framing) {
      match framing
      case NoBody => this == ByItself([])
      case Declared(n) => ByItself? && |bytes| == n && 0 < n
      case ChunkedBody => InChunks? && WellCoded(chunks, last)
      case UntilClose => ByItself?
      case Refused => false
    }

    /** What is handed over of it up to its last byte; a body that lasts until the close is completed by that. */
    function Events(framing: Framing): seq<Event> {
      match this
      case ByItself(bytes) => DataEvents(Body, bytes) + if framing.UntilClose? then [] else [MessageComplete]
      case InChunks(chunks, _) => AllChunkEvents(Datas(chunks))
    }
  }

  datatype Message = Message(start: StartLine, lines: seq<Line>, bare: bool, payload: Payload) {
    function Head(): seq<char> {
      start.Text() + Texts(lines) + LineEnd(bare)
    }

    function Text(): seq<char> {
      Head() + payload.Text()
    }

    function HeadEvents(): seq<Event> {
      start.Events() + LinesEvents(lines) + [HeadersComplete]
    }
  }

  /** The parser at the end of the headers of a message, up to the matchers' fields. */
  function AtEnd(c: Core, m: Message): Core
    requires m.start.Fits() && AllAcceptable(NO_FLAGS, m.lines)
  {
    var t := Told(NO_FLAGS, ULLONG_MAX, m.lines);
    m.start.Leaves(c, 0).(state := HeadersAlmostDone, header := General, flags := t.0, contentLength := t.1)
  }

  /** The application says v of the message, whatever state the matchers are in. */
  ghost predicate Says(cfg: Settings, c: Core, v: int) {
    forall h: HState, i: nat :: cfg(c.(header := h, index := i)) == v
  }

  /** The parser when the application has said v. */
  function Judged(c: Core, m: Message, v: int): Core
    requires m.start.Fits() && AllAcceptable(NO_FLAGS, m.lines)
  {
    var d := Ended(AtEnd(c, m));
    if v == 0 then d
    else if v == 1 then d.(flags := d.flags.(skipBody := true))
    else d.(flags := d.flags.(skipBody := true), upgrade := true)
  }

  /** The framing that the standard takes from the header lines. */
  function FramingOf(c: Core, m: Message, v: int): Framing
    requires m.start.Fits() && AllAcceptable(NO_FLAGS, m.lines)
  {
    ByStandard(Judged(c, m, v), m.lines)
  }

  /**
   * A message that is acceptable to the parser, rightly framed, and with its body written in the framing of the
   * standard, behind which no other protocol begins.
   */
  predicate Proper(c: Core, m: Message, v: int) {
    && m.start.Fits() && m.start.Expected(c) && AllFit(m.lines, c.lenient) && AllAcceptable(NO_FLAGS, m.lines)
    && 0 <= v <= 2 && !(AtEnd(c, m).flags.chunked && AtEnd(c, m).flags.contentLength)
    && RightlyFramed(Judged(c, m, v), m.lines) && m.payload.Follows(FramingOf(c, m, v)) && !Judged(c, m, v).upgrade
  }

  /** Everything that is handed over of a message, in order, but for the completion of a body that ends by the close. */
  function AllEvents(c: Core, m: Message, v: int): seq<Event>
    requires m.start.Fits() && AllAcceptable(NO_FLAGS, m.lines)
  {
    m.HeadEvents() + m.payload.Events(FramingOf(c, m, v))
  }

  // ---------------------------------------------------------------- feeding a message

  /** The matchers' fields do not matter for the framing. */
  lemma SameFraming(c: Core, h: HState, i: nat, lines: seq<Line>)
    ensures var e := c.(header := h, index := i);
            ByStandard(e, lines) == ByStandard(c, lines) && RightlyFramed(e, lines) == RightlyFramed(c, lines)
  {
    hide Values, EndsChunked, OneLength, Noticed, AllEmpty;
  }

  /** The head of a message, and the framing chosen at its end. */
  lemma FeedHead(cfg: Settings, c: Core, m: Message, v: int) returns (e: Core)
    requires Proper(c, m, v) && Says(cfg, Ended(AtEnd(c, m)), v)
    ensures e == Judged(c, m, v).(header := e.header, index := e.index)
    ensures var o := Dispatch(cfg, e, LF);
            && Chooses(o, e, FramingOf(c, m, v))
            && Feed(cfg, c, m.Head(), 0) == Fed(o.core, |m.Head()|, m.HeadEvents() + o.notes, false)
  {
    hide Dispatch, Feed, AllFit, AllAcceptable, Told, Chooses, ByStandard, RightlyFramed, StartLine.Text, Texts,
         StartLine.Events, LinesEvents, Payload.Follows;
    var index := FeedStartLine(cfg, c, m.start);
    var c1 := m.start.Leaves(c, index);
    var d := HeaderChooses(cfg, c1, m.lines, m.bare);
    e := Answered(cfg, d);
    assert d == AtEnd(c, m).(header := d.header, index := d.index);
    assert Ended(d) == Ended(AtEnd(c, m)).(header := d.header, index := d.index);
    assert e == Judged(c, m, v).(header := e.header, index := e.index);
    SameFraming(Judged(c, m, v), e.header, e.index, m.lines);
    var o := Dispatch(cfg, e, LF);
    var header := Texts(m.lines) + LineEnd(m.bare);
    FeedBoth(cfg, c, m.start.Text(), c1, m.start.Events(), header, Feed(cfg, c1, header, 0));
    assert m.Head() == m.start.Text() + header;
    assert m.start.Events() + (LinesEvents(m.lines) + ([HeadersComplete] + o.notes)) == m.HeadEvents() + o.notes;
    AdvancesThere(o, e, FramingOf(c, m, v));
  }

  lemma AdvancesThere(o: Out, c: Core, framing: Framing)
    requires Chooses(o, c, framing) && !c.upgrade
    ensures o.act.Advance?
  {
  }

  /** The parser behind a body in this framing. */
  function Behind(e: Core, framing: Framing): Core {
    match framing
    case Declared(_) => Completed(e.(contentLength := 0, state := MessageDone))
    case ChunkedBody => Unchunked(e)
    case UntilClose => e.(state := BodyIdentityEof)
    case _ => e.(state := NewMessage(e))
  }

  /** The body behind the head, in the framing that was chosen. */
  lemma FeedBody(cfg: Settings, e: Core, o: Out, framing: Framing, p: Payload)
    requires Chooses(o, e, framing) && p.Follows(framing) && !e.upgrade && e.errno.Ok?
    ensures var f := Feed(cfg, o.core, p.Text(), 0);
            !f.stopped && f.core == Behind(e, framing) && o.notes + f.events == p.Events(framing)
  {
    hide Feed, Slips, NewMessage, WellCoded, Coded, DataEvents, AllChunkEvents;
    var c, text := o.core, p.Text();
    if framing.NoBody? {
      NothingLeft(cfg, c, text);
      assert DataEvents(Body, []) == [];
    } else if framing.Declared? {
      FeedIdentity(cfg, c, text);
    } else if framing.ChunkedBody? {
      FeedChunked(cfg, c, p.chunks, p.last);
    } else {
      FeedUntilEof(cfg, c, text, 0);
      assert text[0..] == text;
    }
    assert o.notes + [] == o.notes && [] + p.Events(framing) == p.Events(framing);
    assert DataEvents(Body, text) + [] == DataEvents(Body, text);
  }

  /** A parser of the same connection, behind some of its messages. */
  predicate Alike(c: Core, d: Core) {
    d.kind == c.kind && d.lenient == c.lenient && d.errno == c.errno &&
    if c.kind.Request? then d.status == c.status else d.meth == c.meth
  }

  /** Where a message leaves the parser, by its text. */
  lemma BehindMessage(c: Core, m: Message, v: int, e: Core)
    requires Proper(c, m, v) && e == Judged(c, m, v).(header := e.header, index := e.index)
    ensures var d, framing := Behind(e, FramingOf(c, m, v)), FramingOf(c, m, v);
            d.state == NextState(m.start, m.lines, framing) && Alike(c, d)
  {
    hide AllFit, AllAcceptable, Told, StartLine.Fits, Payload.Follows, KeepsOpen, DigitValue, Values, Noticed, AllEmpty,
         EndsChunked, OneLength, LengthOf, LengthTold, NewMessage, Said;
    var framing := FramingOf(c, m, v);
    ToldOptions(NO_FLAGS, ULLONG_MAX, m.lines);
    ToldChunked(NO_FLAGS, ULLONG_MAX, m.lines);
    ToldLength(NO_FLAGS, ULLONG_MAX, m.lines);
    SameFraming(Judged(c, m, v), e.header, e.index, m.lines);
    PickedFraming(e, m.lines);
    if framing.NoBody? {
      NextIsNew(e, m.start, m.lines);
    } else if framing.Declared? {
      NextIsNew(e.(contentLength := 0, state := MessageDone), m.start, m.lines);
    } else if framing.ChunkedBody? {
      NextIsNew(e.(contentLength := 0, flags := e.flags.(trailing := true), state := MessageDone), m.start, m.lines);
    }
  }

  /**
   * A message written as the standard says comes apart as it was put together: the target or the reason, the names and
   * values of the header lines, and the bytes of the body are handed over in order, and the message is complete once.
   * Behind it the parser expects another one exactly if the body has an end and the text keeps the connection open.
   */
  lemma FeedMessage(cfg: Settings, c: Core, m: Message, v: int)
    requires Proper(c, m, v) && Says(cfg, Ended(AtEnd(c, m)), v)
    ensures var f := Feed(cfg, c, m.Text(), 0);
            && !f.stopped && f.core.errno.Ok? && f.events == AllEvents(c, m, v) && Alike(c, f.core)
            && f.core.state == NextState(m.start, m.lines, FramingOf(c, m, v))
  {
    hide Dispatch, Feed, AllFit, AllAcceptable, Told, Chooses, ByStandard, RightlyFramed, StartLine.Text, Texts,
         StartLine.Events, LinesEvents, Payload.Follows, Payload.Text, Payload.Events;
    var e := FeedHead(cfg, c, m, v);
    var o, framing := Dispatch(cfg, e, LF), FramingOf(c, m, v);
    FeedBody(cfg, e, o, framing, m.payload);
    var f := Feed(cfg, o.core, m.payload.Text(), 0);
    BehindMessage(c, m, v, e);
    ExpectsOk(c, m, v);
    FeedBoth(cfg, c, m.Head(), o.core, m.HeadEvents() + o.notes, m.payload.Text(), f);
    assert m.HeadEvents() + o.notes + f.events == m.HeadEvents() + (o.notes + f.events);
  }

  lemma ExpectsOk(c: Core, m: Message, v: int)
    requires Proper(c, m, v)
    ensures c.errno.Ok?
  {
  }

  // ---------------------------------------------------------------- many messages

  lemma ProperFollows(c: Core, m: Message, v: int)
    requires Proper(c, m, v)
    ensures m.start.Fits() && AllAcceptable(NO_FLAGS, m.lines) && m.payload.Follows(FramingOf(c, m, v))
  {
  }

  /** The connection stays open behind the message. */
  predicate Lasting(c: Core, m: Message, v: int)
    requires m.start.Fits() && AllAcceptable(NO_FLAGS, m.lines)
  {
    !FramingOf(c, m, v).UntilClose? && KeepsOpen(m.start, m.lines)
  }

  /** Proper messages, with what the application says of them, that all last but for the last one. */
  predicate AllProper(c: Core, ms: seq<Message>, vs: seq<int>) {
    |ms| == |vs| &&
    (ms == [] ||
     (Proper(c, ms[0], vs[0]) && (1 < |ms| ==> Lasting(c, ms[0], vs[0])) && AllProper(c, ms[1..], vs[1..])))
  }

  ghost predicate AllSay(cfg: Settings, c: Core, ms: seq<Message>, vs: seq<int>)
    requires AllProper(c, ms, vs)
  {
    ms == [] || (Says(cfg, Ended(AtEnd(c, ms[0])), vs[0]) && AllSay(cfg, c, ms[1..], vs[1..]))
  }

  function AllText(ms: seq<Message>): seq<char> {
    if ms == [] then [] else ms[0].Text() + AllText(ms[1..])
  }

  /** The events of all the messages, one message after the other. */
  function EventsOfAll(c: Core, ms: seq<Message>, vs: seq<int>): seq<Event>
    requires AllProper(c, ms, vs)
  {
    if ms == [] then [] else AllEvents(c, ms[0], vs[0]) + EventsOfAll(c, ms[1..], vs[1..])
  }

  /** What is said of a message does not depend on the messages before it. */
  lemma AlikeProper(c: Core, d: Core, m: Message, v: int)
    requires Alike(c, d) && d.state == c.state && m.start.Fits() && AllAcceptable(NO_FLAGS, m.lines)
    requires m.start.Expected(c)
    ensures Proper(c, m, v) == Proper(d, m, v) && AllEvents(c, m, v) == AllEvents(d, m, v)
    ensures Ended(AtEnd(c, m)) == Ended(AtEnd(d, m)) && Lasting(c, m, v) == Lasting(d, m, v)
  {
    hide AllAcceptable, Told, StartLine.Fits, ByStandard, RightlyFramed;
    assert Ended(AtEnd(c, m)) == Ended(AtEnd(d, m));
    assert Judged(c, m, v) == Judged(d, m, v);
  }

  lemma {:induction false} AllAlike(cfg: Settings, c: Core, d: Core, ms: seq<Message>, vs: seq<int>)
    requires Alike(c, d) && d.state == c.state && AllProper(c, ms, vs) && AllSay(cfg, c, ms, vs)
    ensures AllProper(d, ms, vs) && AllSay(cfg, d, ms, vs) && EventsOfAll(c, ms, vs) == EventsOfAll(d, ms, vs)
    decreases |ms|
  {
    if ms != [] {
      ProperFollows(c, ms[0], vs[0]);
      assert ms[0].start.Expected(c);
      AlikeProper(c, d, ms[0], vs[0]);
      hide Proper, Says, Lasting, AllEvents, AtEnd, Alike;
      AllAlike(cfg, c, d, ms[1..], vs[1..]);
    }
  }

  /**
   * Any list of messages, fed in a row, each of which but the last leaves the connection open: every one comes apart as
   * it was put together, as if it were alone.
   */
  lemma {:induction false} FeedMessages(cfg: Settings, c: Core, ms: seq<Message>, vs: seq<int>)
    requires AllProper(c, ms, vs) && AllSay(cfg, c, ms, vs) && c.errno.Ok?
    ensures var f := Feed(cfg, c, AllText(ms), 0);
            !f.stopped && f.core.errno.Ok? && f.events == EventsOfAll(c, ms, vs) && Alike(c, f.core)
    decreases |ms|
  {
    hide Feed, Proper, Says, Lasting, AllEvents, AtEnd, Message.Text;
    if ms == [] {
      NothingLeft(cfg, c, []);
    } else {
      var m, v, more := ms[0], vs[0], AllText(ms[1..]);
      ProperFollows(c, m, v);
      FeedMessage(cfg, c, m, v);
      var f := Feed(cfg, c, m.Text(), 0);
      Segmentation(cfg, c, m.Text(), more, 0);
      if ms[1..] == [] {
        assert m.Text() + more == m.Text();
        assert AllEvents(c, m, v) + [] == AllEvents(c, m, v);
      } else {
        SameStart(c, m, v);
        AllAlike(cfg, c, f.core, ms[1..], vs[1..]);
        FeedMessages(cfg, f.core, ms[1..], vs[1..]);
      }
    }
  }

  /** A lasting message leaves the parser where it found it. */
  lemma SameStart(c: Core, m: Message, v: int)
    requires Proper(c, m, v) && Lasting(c, m, v)
    ensures NextState(m.start, m.lines, FramingOf(c, m, v)) == c.state
  {
  }

  lemma DeadByte(cfg: Settings, c: Core, ch: char)
    requires c.state.Dead? && ch != CR && ch != LF
    ensures var o := Dispatch(cfg, c, ch); o.act.Fail? && o.core.errno.ClosedConnection?
  {
  }

  /** Behind a message that does not leave the connection open, though its body has an end, nothing more is read. */
  lemma NothingBehind(cfg: Settings, c: Core, m: Message, v: int, more: seq<char>)
    requires Proper(c, m, v) && Says(cfg, Ended(AtEnd(c, m)), v)
    requires !FramingOf(c, m, v).UntilClose? && !KeepsOpen(m.start, m.lines)
    requires more != [] && more[0] != CR && more[0] != LF
    ensures var f := Feed(cfg, c, m.Text() + more, 0);
            f.stopped && f.core.errno.ClosedConnection? && f.used == |m.Text()|
  {
    hide Dispatch, Feed, Proper, Says, AtEnd, Message.Text, KeepsOpen;
    FeedMessage(cfg, c, m, v);
    var d := Feed(cfg, c, m.Text(), 0).core;
    Segmentation(cfg, c, m.Text(), more, 0);
    DeadByte(cfg, d, more[0]);
    FeedFail(cfg, d, more, 0);
  }

  // ---------------------------------------------------------------- the header counter

  lemma DoneRewinds(cfg: Settings, c: Core)
    requires c.state.HeadersDone?
    ensures Dispatch(cfg, c, LF).rewind || !Dispatch(cfg, c, LF).act.Advance?
    ensures !Dispatch(cfg, c, LF).act.Again?
  {
  }

  /** The LF of the empty line resets the counter. */
  lemma {:induction false} EndRewinds(cfg: Settings, c: Core)
    requires c.errno.Ok? && !c.flags.trailing && FeedByte(cfg, c, LF).act.Advance?
    requires c.state.HeadersAlmostDone? || AtLineEnd(c, c)
    ensures ByteRewinds(cfg, c, LF)
    decreases Rank(c.state)
  {
    hide Dispatch, Ends, Answered, FinishHeader;
    var o := Dispatch(cfg, c, LF);
    if c.state.HeadersAlmostDone? {
      EmptyLineBytes(cfg, c);
      AnsweredDone(cfg, c);
      DoneRewinds(cfg, Answered(cfg, c));
      assert Ends(cfg, c) && o.act.Again?;
      assert FeedByte(cfg, o.core, LF).act.Advance?;
    } else if c.state.HeaderFieldStart? {
      EmptyLineBytes(cfg, c);
      EndRewinds(cfg, o.core);
    } else {
      NextBytes(cfg, c, LF);
      FinishKeeps(c.flags, c.header);
      EndRewinds(cfg, o.core);
    }
  }

  /** The CR of the empty line. */
  lemma CrEnds(cfg: Settings, c: Core)
    requires c.errno.Ok? && !c.flags.trailing && AtLineEnd(c, c)
    ensures var f := Feed(cfg, c, [CR], 0);
            !f.stopped && f.core.state.HeadersAlmostDone? && f.core.errno.Ok? && !f.core.flags.trailing
  {
    hide Dispatch, Feed, FinishHeader;
    var data := [CR];
    if c.state.HeaderFieldStart? {
      EmptyLineBytes(cfg, c);
      FeedAdvance(cfg, c, data, 0);
      NothingLeft(cfg, c.(state := HeadersAlmostDone), data);
    } else {
      NextBytes(cfg, c, CR);
      FinishKeeps(c.flags, c.header);
      var c1 := Dispatch(cfg, c, CR).core;
      FeedAgain(cfg, c, data, 0);
      EmptyLineBytes(cfg, c1);
      FeedAdvance(cfg, c1, data, 0);
      NothingLeft(cfg, c1.(state := HeadersAlmostDone), data);
    }
  }

  /** The head of a message but for its last byte. */
  lemma BeforeLf(cfg: Settings, c: Core, m: Message, v: int)
    requires Proper(c, m, v)
    ensures m.Head() != [] && m.Head()[|m.Head()| - 1] == LF
    ensures var f := Feed(cfg, c, m.Head()[..|m.Head()| - 1], 0);
            && !f.stopped && f.core.errno.Ok? && !f.core.flags.trailing
            && (f.core.state.HeadersAlmostDone? || AtLineEnd(f.core, f.core))
  {
    hide Dispatch, Feed, AllFit, AllAcceptable, Told, RightlyFramed, StartLine.Text, Texts, Payload.Follows, ByStandard;
    var index := FeedStartLine(cfg, c, m.start);
    var c1 := m.start.Leaves(c, index);
    LinesEnd(cfg, c1, m.lines);
    Segmentation(cfg, c, m.start.Text(), Texts(m.lines), 0);
    var lines := m.start.Text() + Texts(m.lines);
    var c2 := Feed(cfg, c, lines, 0).core;
    if m.bare {
      assert m.Head() == lines + [LF] && m.Head()[..|m.Head()| - 1] == lines;
    } else {
      assert m.Head() == lines + [CR] + [LF] && m.Head()[..|m.Head()| - 1] == lines + [CR];
      CrEnds(cfg, c2);
      Segmentation(cfg, c, lines, [CR], 0);
    }
  }

  /** A head that is short enough, in front of what stays within the limit from a reset on. */
  lemma HeadCalm(cfg: Settings, c: Core, m: Message, v: int, k: Count)
    requires Proper(c, m, v) && k.cuts && m.Head() <= k.all && k.n + |m.Head()| + k.slack <= HTTP_MAX_HEADER_SIZE
    requires !Feed(cfg, c, m.Head(), 0).stopped
    requires CalmTop(cfg, Feed(cfg, c, m.Head(), 0).core, |m.Head()|, k.(n := 0))
    ensures CalmTop(cfg, c, 0, k)
  {
    hide Dispatch, Feed, CalmTop, CalmMid, Proper, Message.Head;
    BeforeLf(cfg, c, m, v);
    var q := |m.Head()| - 1;
    var head := m.Head()[..q];
    var c1 := Feed(cfg, c, head, 0).core;
    assert m.Head() == head + [LF] && k.all[0..q] == head && k.all[q] == LF;
    Segmentation(cfg, c, head, [LF], 0);
    OneByte(cfg, c1, LF);
    EndRewinds(cfg, c1);
    var kq := k.(n := k.n + q);
    ByteBack(cfg, c1, q, if ParsingHeader(c1.state) then kq.(n := kq.n + 1) else kq);
    TopBack(cfg, c1, q, kq);
    ShortUpTo(cfg, c, 0, q, k);
  }

  lemma OneByte(cfg: Settings, c: Core, ch: char)
    ensures var f, r := Feed(cfg, c, [ch], 0), FeedByte(cfg, c, ch);
            !f.stopped ==> r.act.Advance? && f.core == r.core
  {
    hide Dispatch;
  }

  /** The body stays within the limit from the reset at the end of the head on. */
  lemma BodyCalm(cfg: Settings, e: Core, o: Out, framing: Framing, p: Payload, at: nat, k: Count)
    requires Chooses(o, e, framing) && p.Follows(framing) && k.n == 0 && k.slack <= HTTP_MAX_HEADER_SIZE
    requires at <= |k.all| && k.all[at..] == p.Text()
    requires p.InChunks? ==> AllShort(p.chunks, p.last, k.slack)
    ensures CalmTop(cfg, o.core, at, k)
  {
    hide Dispatch, CalmTop, CalmMid, NewMessage, WellCoded, AllShort, Coded;
    if framing.NoBody? {
      NewMessageStates(e);
      TopEnd(cfg, o.core, k);
    } else if framing.Declared? {
      IdentityCalm(cfg, o.core, at, k);
    } else if framing.ChunkedBody? {
      ChunkedCalm(cfg, o.core, at, p.chunks, p.last, k);
    } else {
      UntilEofCalm(cfg, o.core, at, k);
    }
  }

  /** Behind the head no name or value can be cut. */
  lemma BodyQuiet(cfg: Settings, c: Core, head: seq<char>, body: seq<char>)
    requires !Feed(cfg, c, head, 0).stopped
    requires CalmTop(cfg, Feed(cfg, c, head, 0).core, 0, ChunkCount(body, 0))
    ensures Quiet(cfg, c, head + body, |head|)
  {
    hide Feed, CalmTop, CalmMid;
    var stream := head + body;
    forall q | |head| <= q < |stream|
      ensures QuietAt(cfg, c, stream, q)
    {
      var part := body[..q - |head|];
      assert stream[..q] == head + part && ChunkCount(body, 0).all[0..q - |head|] == part;
      Segmentation(cfg, c, head, part, 0);
      CalmQuiet(cfg, Feed(cfg, c, head, 0).core, 0, q - |head|, ChunkCount(body, 0));
    }
  }

  // ---------------------------------------------------------------- delivery

  /** The header bytes of a message cut into these segments stay within the limit. */
  predicate Fitting(nread: nat, m: Message, segments: seq<seq<char>>) {
    var slack := Starts(segments, |m.Head()|);
    && nread + |m.Head()| + slack <= HTTP_MAX_HEADER_SIZE
    && (m.payload.InChunks? ==> AllShort(m.payload.chunks, m.payload.last, slack))
  }

  lemma MessageWithin(parser: HttpParser, m: Message, v: int, segments: seq<seq<char>>)
    requires AreSegments(segments) && Concat(segments) == m.Text()
    requires Proper(parser.View(), m, v) && Says(parser.settings, Ended(AtEnd(parser.View(), m)), v)
    requires Fitting(parser.nread, m, segments)
    ensures Within(parser, Count(m.Text(), parser.nread, Starts(segments, |m.Head()|), true), segments, |m.Head()|)
  {
    hide Dispatch, Feed, CalmTop, CalmMid, Proper, Says, Message.Head, Quiet, AllShort, Payload.Follows, Payload.Text,
         Chooses;
    var cfg, c, head, body := parser.settings, parser.View(), m.Head(), m.payload.Text();
    var slack := Starts(segments, |head|);
    var k := Count(m.Text(), parser.nread, slack, true);
    var e := FeedHead(cfg, c, m, v);
    ProperFollows(c, m, v);
    var o, framing := Dispatch(cfg, e, LF), FramingOf(c, m, v);
    assert k.all[|head|..] == body;
    BodyCalm(cfg, e, o, framing, m.payload, |head|, k.(n := 0));
    HeadCalm(cfg, c, m, v, k);
    ShortAnyway(m.payload, slack);
    assert ChunkCount(body, 0).all[0..] == body;
    BodyCalm(cfg, e, o, framing, m.payload, 0, ChunkCount(body, 0));
    BodyQuiet(cfg, c, head, body);
    BeforeLf(cfg, c, m, v);
  }

  lemma ShortAnyway(p: Payload, slack: nat)
    requires p.InChunks? ==> AllShort(p.chunks, p.last, slack)
    ensures p.InChunks? ==> AllShort(p.chunks, p.last, 0)
  {
  }

  /**
   * A whole message in any segments, when its header bytes stay within the limit: everything in it is handed over in
   * order, and it is completed exactly once, by its last byte, or by the close of the connection when its body lasts
   * until then; and the parser is where the text says that it goes on.
   */
  method DeliverMessage(parser: HttpParser, segments: seq<seq<char>>, ghost m: Message, ghost v: int)
    requires parser.Valid() && AreSegments(segments) && Concat(segments) == m.Text()
    requires Proper(parser.View(), m, v) && Says(parser.settings, Ended(AtEnd(parser.View(), m)), v)
    requires Fitting(parser.nread, m, segments)
    modifies parser
    ensures parser.Valid() && parser.errno.Ok?
    ensures parser.state == NextState(m.start, m.lines, FramingOf(old(parser.View()), m, v))
    ensures var c := old(parser.View());
            parser.log == old(parser.log) + AllEvents(c, m, v) +
                          if FramingOf(c, m, v).UntilClose? then [MessageComplete] else []
  {
    hide Feed, Slips, StateInv, Numbers, CalmTop, Within, Fitting, Says, FramingOf, AllEvents, AtEnd;
    ghost var k := Count(m.Text(), parser.nread, Starts(segments, |m.Head()|), true);
    FeedMessage(parser.settings, parser.View(), m, v);
    MessageWithin(parser, m, v, segments);
    DeliverSegments(parser, segments, k, |m.Head()|);
    if parser.state.BodyIdentityEof? {
      ghost var j;
      var n;
      n, j := parser.Execute([], ChunkCount([], 0));
    } else {
      assert parser.log + [] == parser.log;
    }
  }
}

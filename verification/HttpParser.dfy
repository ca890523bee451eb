/**
 * The push parser itself: http_parser with its fields, its data marks and its scanning loops, over whole segments.
 */
module HttpParserExecute {
  import opened Basics
  import opened HttpChars
  import opened HttpParserTypes
  import opened HttpParserStep
  import opened HttpParserFeed
  import opened HttpParserInvariant
  import opened HttpParserCount

  /** The five mark pointers of one call, as positions in the segment; -1 is the null pointer. */
  datatype Marks = Marks(url: int, status: int, field: int, value: int, body: int) {
    function Get(k: Piece): int {
      match k
      case Url => url
      case StatusLine => status
      case Field => field
      case Value => value
      case Body => body
    }

    function Set(k: Piece, p: int): (m: Marks)
      ensures m.Get(k) == p
    {
      match k
      case Url => this.(url := p)
      case StatusLine => this.(status := p)
      case Field => this.(field := p)
      case Value => this.(value := p)
      case Body => this.(body := p)
    }
  }

  const NO_MARKS := Marks(-1, -1, -1, -1, -1)

  /**
   * At most the mark of the piece the state owns is set, to a position at or before p; except for the body, it is set.
   */
  predicate MarksMatch(m: Marks, s: State, p: int) {
    match Owner(s)
    case None => m == NO_MARKS
    case Some(k) => m == NO_MARKS.Set(k, m.Get(k)) && -1 <= m.Get(k) <= p && (!k.Body? ==> 0 <= m.Get(k))
  }

  /** The bytes marked and not yet handed over, when the cursor is at p. */
  function Pending(m: Marks, s: State, data: seq<char>, p: nat): seq<Event>
    requires p <= |data| && MarksMatch(m, s, p)
  {
    match Owner(s)
    case None => []
    case Some(k) => if m.Get(k) < 0 then [] else DataEvents(k, data[m.Get(k)..p])
  }

  /** The marks after a dispatch on the byte at p: MARK, then CALLBACK_DATA. */
  function MarksAfter(m: Marks, o: Out, p: nat): Marks {
    var m1 := match o.data case Some(k) => (if m.Get(k) < 0 then m.Set(k, p) else m) case None => m;
    match o.flush case Some(k) => m1.Set(k, -1) case None => m1
  }

  /** The bytes a dispatch on the byte at p hands over. */
  function Flushed(m: Marks, o: Out, data: seq<char>, p: nat): seq<Event>
    requires p <= |data|
  {
    match o.flush
    case Some(k) => if 0 <= m.Get(k) <= p then DataEvents(k, data[m.Get(k)..p]) else []
    case None => []
  }

  lemma MarksStep(m: Marks, s: State, o: Out, p: nat, next: nat)
    requires MarksMatch(m, s, p) && MarkDiscipline(s, o) && !s.BodyIdentity?
    requires next == (if o.act.Again? then p else p + 1)
    ensures MarksMatch(MarksAfter(m, o, p), o.core.state, next)
    ensures o.flush.Some? ==> o.data.None? && -1 <= m.Get(o.flush.value) <= p
    ensures o.act.Exit? ==> o.data.None?
  {
  }

  lemma DataJoin(k: Piece, data: seq<char>, from: nat, p: nat)
    requires from <= p < |data|
    ensures DataEvents(k, data[from..p + 1]) == DataEvents(k, data[from..p]) + [Data(k, data[p])]
    ensures from == p ==> DataEvents(k, data[from..p]) == []
  {
  }

  /** One dispatch that marks: the byte joins the piece. */
  lemma PendingData(m: Marks, s: State, o: Out, data: seq<char>, p: nat)
    requires p < |data| && MarksMatch(m, s, p) && MarkDiscipline(s, o) && !s.BodyIdentity? && o.data.Some? &&
             !o.act.Again?
    requires MarksMatch(MarksAfter(m, o, p), o.core.state, p + 1)
    ensures Flushed(m, o, data, p) + o.notes + Pending(MarksAfter(m, o, p), o.core.state, data, p + 1) ==
            Pending(m, s, data, p) + OutEvents(o, data[p])
  {
    hide Owner, DataEvents;
    var k := o.data.value;
    var from := if m.Get(k) < 0 then p else m.Get(k);
    DataJoin(k, data, from, p);
    var now := Pending(MarksAfter(m, o, p), o.core.state, data, p + 1);
    assert now == DataEvents(k, data[from..p + 1]);
    assert Flushed(m, o, data, p) + o.notes == [];
    assert [] + now == now;
  }

  /** One dispatch: what is flushed, notified and left pending is what was pending, and the events of the byte. */
  lemma PendingStep(m: Marks, s: State, o: Out, data: seq<char>, p: nat, next: nat)
    requires p < |data| && MarksMatch(m, s, p) && MarkDiscipline(s, o) && !s.BodyIdentity?
    requires next == (if o.act.Again? then p else p + 1)
    requires MarksMatch(MarksAfter(m, o, p), o.core.state, next)
    ensures Flushed(m, o, data, p) + o.notes + Pending(MarksAfter(m, o, p), o.core.state, data, next) ==
            Pending(m, s, data, p) + OutEvents(o, data[p])
    ensures o.data.None? ==> Pending(MarksAfter(m, o, p), o.core.state, data, next) == []
  {
    hide Owner;
    if o.data.Some? {
      assert !o.act.Again?;
      hide Pending, Flushed, OutEvents, MarksMatch, MarksAfter;
      PendingData(m, s, o, data, p);
    } else {
      var before, now := Pending(m, s, data, p), Pending(MarksAfter(m, o, p), o.core.state, data, next);
      assert now == [];
      if o.flush.Some? {
        assert before + [] + now == before + ([] + []);
      } else {
        assert before == [];
        assert [] + o.notes + [] == [] + ([] + o.notes);
      }
    }
  }

  /** The same fields; but a header state is not written back when a byte of a header value is rejected. */
  predicate SameFields(c: Core, d: Core) {
    c == if d.errno.InvalidHeaderToken? && d.state.HeaderValue? then d.(header := c.header) else d
  }

  /** What feeding a segment gives, with what was logged before, and whether it slips. */
  datatype Goal = Goal(feed: Fed, slips: bool) {
    /**
     * A call has done what the feed does: the same fields, position and callbacks, those before an error at least in
     * part; unless the feed slips, and then it has gone further.
     */
    predicate Reached(c: Core, n: nat, before: seq<Event>, log: seq<Event>) {
      if slips then feed.used < n
      else
        && SameFields(c, feed.core) && n == feed.used && log <= before + feed.events
        && (c.errno.Ok? ==> log == before + feed.events)
    }
  }

  /** The call fails as the feed does. */
  predicate FailsAt(goal: Goal, c: Core, log: seq<Event>, p: nat) {
    SameFields(c, goal.feed.core) && goal.feed.used == p && goal.feed.stopped && !goal.slips && log <= goal.feed.events
  }

  /** The call has jumped over the byte that the feed rejects. */
  predicate Slipped(goal: Goal, p: nat) {
    goal.slips && goal.feed.used < p
  }

  /** The goal of a call, seen from position p: what was logged, what is pending, and what feeding the rest gives. */
  ghost predicate Tracks(cfg: Settings, c: Core, log: seq<Event>, goal: Goal, data: seq<char>, m: Marks, p: nat)
    requires p <= |data| && MarksMatch(m, c.state, p)
  {
    goal.feed == After(log + Pending(m, c.state, data, p), Feed(cfg, c, data, p)) &&
      goal.slips == Slips(cfg, c, data, p)
  }

  lemma TrackFail(cfg: Settings, c: Core, log: seq<Event>, goal: Goal, data: seq<char>, m: Marks, p: nat)
    requires p < |data| && MarksMatch(m, c.state, p)
    requires Dispatch(cfg, c, data[p]).act.Fail?
    requires Tracks(cfg, c, log, goal, data, m, p)
    ensures FailsAt(goal, Dispatch(cfg, c, data[p]).core, log, p)
  {
    hide Dispatch, MarksMatch, Pending;
  }

  /** PendingStep behind what was logged before. */
  lemma LogStep(s: State, o: Out, log: seq<Event>, data: seq<char>, m: Marks, p: nat, next: nat)
    requires p < |data| && MarksMatch(m, s, p) && MarkDiscipline(s, o) && !s.BodyIdentity?
    requires next == (if o.act.Again? then p else p + 1)
    requires MarksMatch(MarksAfter(m, o, p), o.core.state, next)
    ensures log + Flushed(m, o, data, p) + o.notes + Pending(MarksAfter(m, o, p), o.core.state, data, next) ==
            log + Pending(m, s, data, p) + OutEvents(o, data[p])
    ensures o.data.None? ==> Pending(MarksAfter(m, o, p), o.core.state, data, next) == []
  {
    hide MarksMatch, MarksAfter, MarkDiscipline, Pending, Flushed, OutEvents;
    PendingStep(m, s, o, data, p, next);
    var f, now := Flushed(m, o, data, p), Pending(MarksAfter(m, o, p), o.core.state, data, next);
    assert log + (f + o.notes + now) == log + f + o.notes + now;
    assert log + (Pending(m, s, data, p) + OutEvents(o, data[p])) ==
           log + Pending(m, s, data, p) + OutEvents(o, data[p]);
  }

  /** One dispatch keeps the goal of the whole call. */
  lemma TrackDispatch(cfg: Settings, c: Core, o: Out, log: seq<Event>, goal: Goal, data: seq<char>, m: Marks, p: nat,
                      next: nat)
    requires p < |data| && MarksMatch(m, c.state, p) && !c.state.BodyIdentity? && !SlipsAt(c, data, p)
    requires o == Dispatch(cfg, c, data[p]) && !o.act.Fail? && MarkDiscipline(c.state, o)
    requires next == (if o.act.Again? then p else p + 1)
    requires Tracks(cfg, c, log, goal, data, m, p)
    ensures MarksMatch(MarksAfter(m, o, p), o.core.state, next)
    ensures var log' := log + Flushed(m, o, data, p) + o.notes;
            if o.act.Exit? then
              goal == Goal(Fed(o.core, p + 1, log', true), false)
            else
              Tracks(cfg, o.core, log', goal, data, MarksAfter(m, o, p), next)
  {
    hide Dispatch, Feed, Slips, MarksMatch, Owner, MarkDiscipline;
    MarksStep(m, c.state, o, p, next);
    hide MarksAfter;
    LogStep(c.state, o, log, data, m, p, next);
    hide Pending, Flushed, OutEvents;
    var was, es := log + Pending(m, c.state, data, p), OutEvents(o, data[p]);
    if o.act.Again? {
      FeedAgain(cfg, c, data, p);
      AfterAfter(was, es, Feed(cfg, o.core, data, p));
    } else if o.act.Advance? {
      FeedAdvance(cfg, c, data, p);
      AfterAfter(was, es, Feed(cfg, o.core, data, p + 1));
    } else {
      FeedExit(cfg, c, data, p);
      assert log + Flushed(m, o, data, p) + o.notes + [] == log + Flushed(m, o, data, p) + o.notes;
    }
  }

  lemma FieldByte(cfg: Settings, c: Core, ch: char)
    requires c.state.HeaderField?
    ensures IsToken(ch) ==>
              var r := FieldChar(c.header, c.index, Token(ch));
              Dispatch(cfg, c, ch) == Keep(c.(header := r.0, index := r.1), HeaderField, Field)
    ensures Dispatch(cfg, c, ch).act.Again? == false
    ensures Dispatch(cfg, c, ch).act.Exit? == false
  {
  }

  lemma ValueLineEnd(cfg: Settings, c: Core, ch: char)
    requires c.state.HeaderValue? && (ch == CR || ch == LF)
    ensures Dispatch(cfg, c, ch).core == c.(state := HeaderAlmostDone)
    ensures Dispatch(cfg, c, ch).act == if ch == CR then Advance else Again
    ensures !Dispatch(cfg, c, ch).rewind
  {
  }

  lemma ValueByte(cfg: Settings, c: Core, ch: char)
    requires c.state.HeaderValue? && ch != CR && ch != LF
    ensures !c.lenient && !IsHeaderChar(ch) ==> Dispatch(cfg, c, ch) == Bad(c, InvalidHeaderToken)
    ensures c.lenient || IsHeaderChar(ch) ==> Dispatch(cfg, c, ch) == ValueChar(c, ch)
  {
  }

  lemma ValueCharShape(c: Core, ch: char)
    requires c.state.HeaderValue? && c.errno.Ok?
    ensures Owner(c.state) == Some(Value)
    ensures var o := ValueChar(c, ch);
            o.core.errno.InvalidContentLength? ||
            (&& o.core.errno == c.errno && o.act.Advance? && o.data == Some(Value)
             && o.flush.None? && o.notes == [] && !o.rewind
             && o.core == c.(index := o.core.index, flags := o.core.flags, contentLength := o.core.contentLength,
                             header := o.core.header))
  {
    hide MatchWord, Lower, Token, LengthDigit, ConnectionOption, IsNum, DigitValue;
  }

  /**
   * The jump over a general value: nothing is logged, the marked piece grows; or the feed has rejected a byte in
   * between.
   */
  lemma TrackJump(cfg: Settings, c: Core, log: seq<Event>, goal: Goal, data: seq<char>, m: Marks, p: nat, q: nat)
    requires p < q <= |data| && MarksMatch(m, c.state, p) && InGeneral(c) && NoLineEnd(data, p, q) &&
             !Forbidden(c, data[p])
    requires q == |data| || data[q] == CR || data[q] == LF
    requires Tracks(cfg, c, log, goal, data, m, p)
    ensures MarksMatch(m, c.state, q) && (Tracks(cfg, c, log, goal, data, m, q) || Slipped(goal, q))
  {
    hide Feed, Slips, NoLineEnd, Allowed;
    if Allowed(c, data, p, q) {
      FeedGeneralRun(cfg, c, data, p, q);
      AfterAfter(log + Pending(m, c.state, data, p), DataEvents(Value, data[p..q]), Feed(cfg, c, data, q));
      assert DataEvents(Value, data[m.value..p]) + DataEvents(Value, data[p..q]) == DataEvents(Value, data[m.value..q]);
      assert log + Pending(m, c.state, data, p) + DataEvents(Value, data[p..q]) == log + Pending(m, c.state, data, q);
    } else {
      RunSlips(cfg, c, data, p, q);
    }
  }

  lemma TrackedSlips(cfg: Settings, c: Core, log: seq<Event>, goal: Goal, data: seq<char>, m: Marks, p: nat)
    requires p <= |data| && MarksMatch(m, c.state, p) && Tracks(cfg, c, log, goal, data, m, p)
    ensures Slips(cfg, c, data, p) == goal.slips
  {
    hide Feed, Slips, Pending, MarksMatch;
  }

  lemma MarksLater(m: Marks, s: State, p: nat, q: nat)
    requires MarksMatch(m, s, p) && p <= q
    ensures MarksMatch(m, s, q)
  {
  }

  lemma ValueHeaderKnown(c: Core)
    requires Inv(c) && c.state.HeaderValue?
    ensures IsValueHState(c.header)
  {
  }

  lemma FieldHeaderKnown(c: Core)
    requires Inv(c) && c.state.HeaderField?
    ensures IsFieldHState(c.header)
  {
  }

  /** A byte that joins the piece being marked: nothing is logged, and the marks stay. */
  lemma TrackKeep(cfg: Settings, c: Core, log: seq<Event>, goal: Goal, data: seq<char>, m: Marks, p: nat)
    requires p < |data| && MarksMatch(m, c.state, p) && (c.state.HeaderField? || c.state.HeaderValue?)
    requires var o := Dispatch(cfg, c, data[p]);
             o.act.Advance? && o.data == Owner(c.state) && o.flush.None? && o.notes == [] && o.core.state == c.state
    requires !InGeneral(c)
    requires Tracks(cfg, c, log, goal, data, m, p)
    ensures MarksMatch(m, c.state, p + 1)
    ensures Tracks(cfg, Dispatch(cfg, c, data[p]).core, log, goal, data, m, p + 1)
  {
    var o := Dispatch(cfg, c, data[p]);
    hide Dispatch;
    assert MarksAfter(m, o, p) == m;
    assert log + Flushed(m, o, data, p) + o.notes == log;
    TrackDispatch(cfg, c, o, log, goal, data, m, p, p + 1);
  }

  lemma StartTracks(cfg: Settings, c: Core, log: seq<Event>, data: seq<char>, m: Marks)
    requires MarksMatch(m, c.state, 0) && Pending(m, c.state, data, 0) == []
    ensures Tracks(cfg, c, log, Goal(After(log, Feed(cfg, c, data, 0)), Slips(cfg, c, data, 0)), data, m, 0)
  {
    hide Feed, Slips, Pending, MarksMatch;
    assert log + [] == log;
  }

  lemma EndTracks(cfg: Settings, c: Core, log: seq<Event>, goal: Goal, data: seq<char>, m: Marks)
    requires MarksMatch(m, c.state, |data|) && Tracks(cfg, c, log, goal, data, m, |data|)
    ensures goal == Goal(Fed(c, |data|, log + Pending(m, c.state, data, |data|), false), false)
  {
    hide Feed, Slips, Pending, MarksMatch;
    NothingLeft(cfg, c, data);
    assert log + Pending(m, c.state, data, |data|) + [] == log + Pending(m, c.state, data, |data|);
  }

  /** The states in which the stream may end. */
  predicate EndsHere(s: State) {
    s.BodyIdentityEof? || s.Dead? || s.StartReqOrRes? || s.StartRes? || s.StartReq?
  }

  /** Segments short enough that the 32-bit header counter cannot wrap around within one call. */
  predicate Countable(data: seq<char>) {
    |data| < TWO_TO_32 - 2 * HTTP_MAX_HEADER_SIZE
  }

  // ---------------------------------------------------------------- the counter

  /** While the byte at p is dispatched, the counter is within the count, which stays within the limit. */
  ghost predicate MidAt(cfg: Settings, c: Core, nread: nat, data: seq<char>, p: nat, k: Count) {
    p < |data| && data <= k.all && CalmMid(cfg, c, p, k) && nread <= k.n && (k.cuts ==> 1 <= k.slack)
  }

  /** Before the byte at p, or at the end of the segment, where a name or value has been counted one byte too many. */
  ghost predicate TopAt(cfg: Settings, c: Core, nread: nat, data: seq<char>, p: nat, k: Count) {
    p <= |data| && data <= k.all && CalmTop(cfg, c, p, k) && (k.cuts ==> 1 <= k.slack) &&
    nread <= k.n + (if p == |data| && InRun(c.state) then 1 else 0)
  }

  /** In a run from p to q, which is counted at its end. */
  ghost predicate RunAt(cfg: Settings, c: Core, nread: nat, data: seq<char>, p: nat, q: nat, k: Count) {
    if q == p then MidAt(cfg, c, nread, data, p, k)
    else
      && p < q <= |data| && data <= k.all && CalmTop(cfg, c, q, RunCount(k, p, q))
      && RunCount(k, p, q).n + k.slack <= HTTP_MAX_HEADER_SIZE
      && nread <= k.n && (k.cuts ==> 1 <= k.slack)
  }

  predicate SameBut(k: Count, k': Count) {
    k'.all == k.all && k'.slack == k.slack && k'.cuts == k.cuts
  }

  /** The byte at p is counted, and there is room for it. */
  lemma ByteCounted(cfg: Settings, c: Core, nread: nat, data: seq<char>, p: nat, k: Count)
    requires p < |data| && TopAt(cfg, c, nread, data, p, k)
    ensures var d := if ParsingHeader(c.state) then 1 else 0;
            nread + d <= HTTP_MAX_HEADER_SIZE && MidAt(cfg, c, nread + d, data, p, k.(n := k.n + d))
  {
    hide Dispatch, CalmMid;
    TopStep(cfg, c, p, k);
  }

  lemma DispatchCounted(cfg: Settings, c: Core, nread: nat, data: seq<char>, p: nat, k: Count)
    requires MidAt(cfg, c, nread, data, p, k)
    ensures var o := Dispatch(cfg, c, data[p]); var n := if o.rewind then 0 else nread;
            && (o.act.Again? ==> MidAt(cfg, o.core, n, data, p, Counted(k, o)))
            && (o.act.Advance? ==> TopAt(cfg, o.core, n, data, p + 1, Counted(k, o)))
  {
    hide Dispatch, CalmMid, CalmTop;
    MidStep(cfg, c, p, k);
  }

  lemma MidLess(cfg: Settings, c: Core, nread: nat, less: nat, data: seq<char>, p: nat, k: Count)
    requires MidAt(cfg, c, nread, data, p, k) && less <= nread
    ensures MidAt(cfg, c, less, data, p, k) && nread <= k.n
  {
    hide CalmMid;
  }

  lemma TopMore(cfg: Settings, c: Core, nread: nat, more: nat, data: seq<char>, p: nat, k: Count)
    requires TopAt(cfg, c, nread, data, p, k) && more <= k.n
    ensures TopAt(cfg, c, more, data, p, k)
  {
    hide CalmTop;
  }

  /** The count at the end of a run, when the byte there is dispatched next. */
  function AfterRun(k: Count, p: nat, q: nat): Count
    requires p <= q
  {
    k.(n := k.n + (q - p))
  }

  /** A run has room for its count. */
  lemma RunRoom(cfg: Settings, c: Core, nread: nat, data: seq<char>, p: nat, q: nat, k: Count)
    requires p <= q && InRun(c.state) && RunAt(cfg, c, nread, data, p, q, k)
    ensures nread + (q - p) <= HTTP_MAX_HEADER_SIZE
    ensures q < |data| ==> MidAt(cfg, c, nread + (q - p), data, q, AfterRun(k, p, q))
    ensures q == |data| && p < q ==> TopAt(cfg, c, nread + (q - p), data, q, RunCount(k, p, q))
  {
    hide Dispatch;
    if q == p {
      hide CalmTop;
    } else if q < |data| {
      hide CalmMid;
      RunStep(cfg, c, q, RunCount(k, p, q));
    }
  }

  lemma RunStarts(cfg: Settings, c: Core, nread: nat, data: seq<char>, p: nat, k: Count)
    ensures MidAt(cfg, c, nread, data, p, k) <==> RunAt(cfg, c, nread, data, p, p, k)
  {
  }

  lemma RunKeeps(cfg: Settings, c: Core, nread: nat, data: seq<char>, p: nat, q: nat, k: Count)
    requires p <= q < |data| && InRun(c.state) && RunAt(cfg, c, nread, data, p, q, k)
    requires var o := Dispatch(cfg, c, data[q]); o.act.Advance? && !o.rewind
    ensures RunAt(cfg, Dispatch(cfg, c, data[q]).core, nread, data, p, q + 1, k)
  {
    hide Dispatch, CalmMid, CalmTop;
    RunRoom(cfg, c, nread, data, p, q, k);
    MidStep(cfg, c, q, AfterRun(k, p, q));
    assert AfterRun(k, p, q) == RunCount(k, p, q + 1);
  }

  /** What the bounded searches for the end of a general value promise of the byte they lead to. */
  predicate Jumps(data: seq<char>, q: nat, r: nat)
    requires q < r <= |data|
  {
    && (r < |data| ==> data[r] == CR || data[r] == LF)
    && (Bounded(data, q, r) ==> NoLineEnd(data, q, r))
    && (!Bounded(data, q, r) ==> NoLineEnd(data, q, q + HTTP_MAX_HEADER_SIZE))
  }

  /** The searches did not run past their bound. */
  predicate Bounded(data: seq<char>, q: nat, r: nat)
  {
    |data| - q <= HTTP_MAX_HEADER_SIZE || r < |data|
  }

  /** The jump over a general value stays within the limit, so that it cannot run past the bounded searches. */
  lemma JumpCalm(cfg: Settings, c: Core, nread: nat, data: seq<char>, p: nat, q: nat, r: nat, k: Count)
    requires p <= q < r <= |data| && InGeneral(c) && RunAt(cfg, c, nread, data, p, q, k)
    requires !Forbidden(c, data[q]) && !Slips(cfg, c, data, q) && Jumps(data, q, r)
    ensures Bounded(data, q, r) && RunAt(cfg, c, nread, data, p, r, k)
  {
    hide Dispatch, Slips, CalmMid, CalmTop, NoLineEnd, Allowed;
    RunRoom(cfg, c, nread, data, p, q, k);
    var k1 := AfterRun(k, p, q);
    Cuts(cfg, c, q, k1);
    if !Bounded(data, q, r) {
      TooLong(cfg, c, data, q, k1);
      assert false;
    }
    GeneralChars(cfg, c, data, q, r);
    WithinAll(c, data, k.all, q, r);
    GeneralCalm(cfg, c, q, r, k1);
    assert RunCount(k1, q, r) == RunCount(k, p, r);
  }

  lemma WithinAll(c: Core, data: seq<char>, all: seq<char>, p: nat, q: nat)
    requires p <= q <= |data| && data <= all && NoLineEnd(data, p, q) && Allowed(c, data, p, q)
    ensures NoLineEnd(all, p, q) && Allowed(c, all, p, q)
  {
  }

  /**
   * The same jump keeps the parser on track unless it ran past the bounded searches or over a byte that the feed
   * rejects.
   */
  lemma ValueJump(cfg: Settings, c: Core, log: seq<Event>, goal: Goal, nread: nat, data: seq<char>, m: Marks,
                  p: nat, q: nat, r: nat, k: Count, calm: bool)
    requires p <= q < r <= |data| && InGeneral(c) && MarksMatch(m, c.state, q)
    requires !Forbidden(c, data[q]) && Jumps(data, q, r) && Tracks(cfg, c, log, goal, data, m, q)
    requires calm ==> !goal.slips && RunAt(cfg, c, nread, data, p, q, k)
    ensures MarksMatch(m, c.state, r)
    ensures Bounded(data, q, r) ==> Tracks(cfg, c, log, goal, data, m, r) || Slipped(goal, r)
    ensures calm ==> Bounded(data, q, r) && RunAt(cfg, c, nread, data, p, r, k)
  {
    hide Tracks, MarksMatch, RunAt, Feed, Slips, NoLineEnd;
    MarksLater(m, c.state, q, r);
    if calm {
      TrackedSlips(cfg, c, log, goal, data, m, q);
      JumpCalm(cfg, c, nread, data, p, q, r, k);
    }
    if Bounded(data, q, r) {
      TrackJump(cfg, c, log, goal, data, m, q, r);
    }
  }

  lemma Cuts(cfg: Settings, c: Core, p: nat, k: Count)
    requires InRun(c.state) && p < |k.all| && CalmMid(cfg, c, p, k)
    ensures k.cuts
  {
    hide Dispatch;
  }

  /** memchr over data[p..p + limit]; the result is p + limit when the character does not occur. */
  method MemChr(data: seq<char>, p: nat, limit: nat, ch: char) returns (q: nat)
    requires p + limit <= |data|
    ensures p <= q <= p + limit
    ensures forall i :: p <= i < q ==> data[i] != ch
    ensures q < p + limit ==> data[q] == ch
  {
    q := p;
    while q < p + limit && data[q] != ch
      invariant p <= q <= p + limit
      invariant forall i :: p <= i < q ==> data[i] != ch
    {
      q := q + 1;
    }
  }

  function MarkBody(m: Marks, p: nat): Marks {
    if m.body < 0 then m.(body := p) else m
  }

  lemma BodyMark(m: Marks, s: State, s': State, p: nat, q: nat)
    requires MarksMatch(m, s, p) && p <= q && Owner(s) == Some(Body)
    ensures Owner(s') == Some(Body) ==> MarksMatch(MarkBody(m, p), s', q)
    ensures Owner(s').None? ==> MarkBody(m, p).Set(Body, -1) == NO_MARKS && MarksMatch(NO_MARKS, s', q)
    ensures 0 <= MarkBody(m, p).body <= p
  {
  }

  lemma PendingBody(m: Marks, s: State, data: seq<char>, p: nat, q: nat)
    requires p <= q <= |data| && MarksMatch(m, s, p) && Owner(s) == Some(Body)
    ensures 0 <= MarkBody(m, p).body <= p
    ensures Pending(m, s, data, p) + DataEvents(Body, data[p..q]) == DataEvents(Body, data[MarkBody(m, p).body..q])
  {
    hide Owner;
    if m.body < 0 {
      assert Pending(m, s, data, p) == [];
    } else {
      assert data[m.body..p] + data[p..q] == data[m.body..q];
    }
  }

  /** A block of body bytes up to q joins the marked piece. */
  lemma TrackBlock(cfg: Settings, c: Core, c': Core, log: seq<Event>, goal: Goal, data: seq<char>, m: Marks, p: nat,
                   q: nat, next: nat)
    requires p < |data| && p <= q <= |data| && next <= |data| && MarksMatch(m, c.state, p) &&
             Owner(c.state) == Some(Body)
    requires Feed(cfg, c, data, p) == After(DataEvents(Body, data[p..q]), Feed(cfg, c', data, next))
    requires Slips(cfg, c, data, p) == Slips(cfg, c', data, next)
    requires Tracks(cfg, c, log, goal, data, m, p)
    ensures 0 <= MarkBody(m, p).body <= p
    ensures goal.feed == After(log + DataEvents(Body, data[MarkBody(m, p).body..q]), Feed(cfg, c', data, next))
    ensures goal.slips == Slips(cfg, c', data, next)
  {
    hide Feed, Slips, Owner, Pending, MarksMatch, MarkBody, DataEvents;
    PendingBody(m, c.state, data, p, q);
    var was, block := Pending(m, c.state, data, p), DataEvents(Body, data[p..q]);
    AfterAfter(log + was, block, Feed(cfg, c', data, next));
    assert log + was + block == log + (was + block);
  }

  /** The state still owns the piece: it is pending. */
  lemma TrackGrown(cfg: Settings, c: Core, c': Core, log: seq<Event>, goal: Goal, data: seq<char>, m: Marks, p: nat,
                   q: nat)
    requires p < |data| && p <= q <= |data| && MarksMatch(m, c.state, p) &&
             Owner(c.state) == Some(Body) == Owner(c'.state)
    requires Feed(cfg, c, data, p) == After(DataEvents(Body, data[p..q]), Feed(cfg, c', data, q))
    requires Slips(cfg, c, data, p) == Slips(cfg, c', data, q)
    requires Tracks(cfg, c, log, goal, data, m, p)
    ensures MarksMatch(MarkBody(m, p), c'.state, q) && Tracks(cfg, c', log, goal, data, MarkBody(m, p), q)
  {
    hide Feed, Slips, Owner;
    TrackBlock(cfg, c, c', log, goal, data, m, p, q, q);
  }

  /** The state is left: the piece is handed over. */
  lemma TrackHandedOver(cfg: Settings, c: Core, c': Core, log: seq<Event>, goal: Goal, data: seq<char>, m: Marks,
                        p: nat, q: nat, next: nat)
    requires p < |data| && p <= q <= |data| && next <= |data| && MarksMatch(m, c.state, p)
    requires Owner(c.state) == Some(Body) && Owner(c'.state).None?
    requires Feed(cfg, c, data, p) == After(DataEvents(Body, data[p..q]), Feed(cfg, c', data, next))
    requires Slips(cfg, c, data, p) == Slips(cfg, c', data, next)
    requires Tracks(cfg, c, log, goal, data, m, p)
    ensures MarksMatch(NO_MARKS, c'.state, next) && 0 <= MarkBody(m, p).body <= p
    ensures Tracks(cfg, c', log + DataEvents(Body, data[MarkBody(m, p).body..q]), goal, data, NO_MARKS, next)
  {
    hide Feed, Slips, Owner;
    TrackBlock(cfg, c, c', log, goal, data, m, p, q, next);
    var es := log + DataEvents(Body, data[MarkBody(m, p).body..q]);
    assert es + [] == es;
  }

  lemma BodyLengthKnown(c: Core)
    requires Inv(c) && (c.state.BodyIdentity? || c.state.ChunkData?)
    ensures Owner(c.state) == Some(Body) && 0 < c.contentLength < ULLONG_MAX && (c.state.ChunkData? ==> c.flags.chunked)
    ensures forall n: nat :: 0 < n < c.contentLength ==> Inv(c.(contentLength := n))
    ensures c.state.BodyIdentity? ==> Inv(c.(contentLength := 0, state := MessageDone)) && Owner(MessageDone).None?
    ensures c.state.ChunkData? ==>
              Inv(c.(contentLength := 0, state := ChunkDataAlmostDone)) && Owner(ChunkDataAlmostDone) == Some(Body)
  {
  }

  /**
   * The jump of the general-value state: to the first CR or LF, searched for within HTTP_MAX_HEADER_SIZE bytes, or to
   * the end of the segment.
   */
  method NextLineEnd(data: seq<char>, p: nat) returns (q: nat)
    requires p < |data| && data[p] != CR && data[p] != LF
    ensures p < q <= |data|
    ensures Jumps(data, p, q)
  {
    var limit := if |data| - p < HTTP_MAX_HEADER_SIZE then |data| - p else HTTP_MAX_HEADER_SIZE;
    var cr := MemChr(data, p, limit, CR);
    var lf := MemChr(data, p, limit, LF);
    if cr < p + limit {
      q := if lf < p + limit && cr >= lf then lf else cr;
    } else if lf < p + limit {
      q := lf;
    } else {
      q := |data|;
    }
  }

  class HttpParser {
    const settings: Settings
    var kind: MessageType
    var state: State
    var flags: Flags
    var header: HState
    var index: nat
    var contentLength: nat
    var major: nat
    var minor: nat
    var status: nat
    var meth: Method
    var upgrade: bool
    const lenient: bool
    var errno: Errno
    var nread: nat
    /** The callbacks made so far. */
    var log: seq<Event>

    function View(): Core
      reads this
    {
      Core(kind, state, flags, header, index, contentLength, major, minor, status, meth, upgrade, lenient, errno)
    }

    /** The invariant between two calls. */
    predicate Valid()
      reads this
    {
      errno.Ok? ==> Inv(View()) && nread <= HTTP_MAX_HEADER_SIZE && (state.ChunkSizeStart? ==> nread == 0)
    }

    /** The invariant while a byte is being dispatched: it is counted if it is a header byte. */
    predicate Dispatching()
      reads this
    {
      errno.Ok? && Inv(View()) && nread <= HTTP_MAX_HEADER_SIZE && (state.ChunkSizeStart? ==> nread == 1)
    }

    /** The goal of the call, seen from the present fields and the position p. */
    ghost predicate OnTrack(goal: Goal, data: seq<char>, m: Marks, p: nat)
      requires p <= |data| && MarksMatch(m, state, p)
      reads this
    {
      Tracks(settings, View(), log, goal, data, m, p)
    }

    /** What feeding a segment to the parser as it is would give. */
    ghost function Result(data: seq<char>): Goal
      reads this
    {
      Goal(Feed(settings, View(), data, 0), Slips(settings, View(), data, 0))
    }

    ghost predicate Mid(k: Count, data: seq<char>, p: nat)
      reads this
    {
      MidAt(settings, View(), nread, data, p, k)
    }

    ghost predicate Top(k: Count, data: seq<char>, p: nat)
      reads this
    {
      TopAt(settings, View(), nread, data, p, k)
    }

    constructor (settings: Settings, kind: MessageType, lenient: bool)
      ensures Valid() && errno.Ok? && log == [] && this.settings == settings && this.lenient == lenient
      ensures this.kind == kind
      ensures state == if kind.Request? then StartReq else if kind.Response? then StartRes else StartReqOrRes
    {
      this.settings, this.kind, this.lenient := settings, kind, lenient;
      state := if kind.Request? then StartReq else if kind.Response? then StartRes else StartReqOrRes;
      flags, header, index, contentLength := NO_FLAGS, General, 0, 0;
      major, minor, status, meth, upgrade, errno, nread, log := 0, 0, 0, DELETE, false, Errno.Ok, 0, [];
    }

    /** Assigns the fields from a dispatch. */
    method Become(c: Core)
      requires c.lenient == lenient
      modifies this
      ensures View() == c && nread == old(nread) && log == old(log)
    {
      kind, state, flags, header, index, contentLength := c.kind, c.state, c.flags, c.header, c.index, c.contentLength;
      major, minor, status, meth, upgrade, errno := c.major, c.minor, c.status, c.meth, c.upgrade, c.errno;
    }

    /** COUNT_HEADER_SIZE, in 32-bit arithmetic; false is the jump to the error label. */
    method CountHeaderSize(n: nat) returns (ok: bool)
      modifies this`nread, this`errno
      ensures nread == (old(nread) + n) % TWO_TO_32
      ensures ok <==> nread <= HTTP_MAX_HEADER_SIZE
      ensures errno == if ok then old(errno) else HeaderOverflow
    {
      nread := (nread + n) % TWO_TO_32;
      ok := nread <= HTTP_MAX_HEADER_SIZE;
      if !ok {
        errno := HeaderOverflow;
      }
    }

    /** CALLBACK_DATA: hands over data[mark..end] and clears the mark. */
    method CallbackData(k: Piece, data: seq<char>, m: Marks, end: nat) returns (m': Marks)
      requires errno.Ok? && m.Get(k) <= end <= |data|
      modifies this`log
      ensures m' == m.Set(k, -1)
      ensures log == old(log) + if m.Get(k) < 0 then [] else DataEvents(k, data[m.Get(k)..end])
    {
      if m.Get(k) >= 0 {
        log := log + DataEvents(k, data[m.Get(k)..end]);
      }
      m' := m.Set(k, -1);
    }

    /** The effects of a dispatch: the fields, MARK, CALLBACK_DATA, the notifications and the byte counter. */
    method Apply(o: Out, data: seq<char>, p: nat, m: Marks) returns (m': Marks)
      requires o.core.lenient == lenient && o.core.errno.Ok? && p <= |data|
      requires o.flush.Some? ==> o.data.None? && m.Get(o.flush.value) <= p
      modifies this
      ensures View() == o.core && m' == MarksAfter(m, o, p)
      ensures log == old(log) + Flushed(m, o, data, p) + o.notes
      ensures nread == if o.rewind then 0 else old(nread)
    {
      m' := m;
      if o.data.Some? && m.Get(o.data.value) < 0 {
        m' := m.Set(o.data.value, p);
      }
      Become(o.core);
      if o.flush.Some? {
        m' := CallbackData(o.flush.value, data, m', p);
      }
      assert log == old(log) + Flushed(m, o, data, p);
      log := log + o.notes;
      if o.rewind {
        nread := 0;
      }
    }

    /** One pass through the switch in a state that neither scans nor copies a block. */
    method DispatchByte(data: seq<char>, p: nat, m: Marks, ghost goal: Goal, ghost k: Count)
      returns (act: Act, m': Marks, ghost k': Count)
      requires Dispatching() && p < |data| && MarksMatch(m, state, p)
      requires !state.BodyIdentity? && (state.HeaderValue? ==> data[p] == CR || data[p] == LF)
      modifies this
      ensures old(log) <= log
      ensures act == Dispatch(settings, old(View()), data[p]).act &&
              View() == Dispatch(settings, old(View()), data[p]).core
      ensures act.Fail? <==> !errno.Ok?
      ensures act.Advance? || act.Exit? ==> Valid()
      ensures act.Exit? ==> upgrade
      ensures act.Again? ==> Dispatching() && Rank(state) < Rank(old(state)) && MarksMatch(m', state, p)
      ensures act.Again? ==> !state.BodyIdentity?
      ensures act.Advance? ==> MarksMatch(m', state, p + 1)
      ensures act.Advance? && old(OnTrack(goal, data, m, p)) ==> OnTrack(goal, data, m', p + 1)
      ensures act.Again? && old(OnTrack(goal, data, m, p)) ==> OnTrack(goal, data, m', p)
      ensures act.Exit? && old(OnTrack(goal, data, m, p)) ==> goal == Goal(Fed(View(), p + 1, log, true), false)
      ensures act.Fail? && old(OnTrack(goal, data, m, p)) ==> FailsAt(goal, View(), log, p)
      ensures !errno.HeaderOverflow? && SameBut(k, k')
      ensures var o := Dispatch(settings, old(View()), data[p]); k' == Counted(k, o) && nread == if o.rewind &&
              !act.Fail? then 0 else old(nread)
      ensures old(Mid(k, data, p)) ==> (act.Again? ==> Mid(k', data, p)) && (act.Advance? ==> Top(k', data, p + 1))
    {
      ghost var c, log0 := View(), log;
      hide Dispatch, Feed, Slips, StateInv, Owner, Pending, MarksMatch, Tracks, MarkDiscipline, MidAt, TopAt;
      var o := Dispatch(settings, View(), data[p]);
      k' := Counted(k, o);
      DispatchKeeps(settings, c, data[p]);
      if Mid(k, data, p) {
        DispatchCounted(settings, c, nread, data, p, k);
      }
      if o.act.Fail? {
        if Tracks(settings, c, log, goal, data, m, p) {
          TrackFail(settings, c, log, goal, data, m, p);
        }
        Become(o.core);
        return Fail, m, k';
      }
      ghost var next := if o.act.Again? then p else p + 1;
      MarksStep(m, c.state, o, p, next);
      if Tracks(settings, c, log, goal, data, m, p) {
        TrackDispatch(settings, c, o, log, goal, data, m, p, next);
      }
      hide MarksAfter, Flushed;
      act := o.act;
      m' := Apply(o, data, p, m);
    }

    /** A token character of a header name. */
    method FieldCharacter(data: seq<char>, p: nat, m: Marks, ghost goal: Goal)
      requires errno.Ok? && state.HeaderField? && Inv(View()) && p < |data| && IsToken(data[p]) &&
               MarksMatch(m, state, p)
      modifies this`header, this`index
      ensures errno.Ok? && state.HeaderField? && Inv(View()) && MarksMatch(m, state, p + 1)
      ensures old(OnTrack(goal, data, m, p)) ==> OnTrack(goal, data, m, p + 1)
      ensures View() == Dispatch(settings, old(View()), data[p]).core
    {
      hide Dispatch, Feed, Slips, Pending, Tracks, MarkDiscipline, StateInv;
      FieldHeaderKnown(View());
      assert IsFieldHState(header);
      ghost var c := View();
      FieldByte(settings, c, data[p]);
      DispatchKeeps(settings, c, data[p]);
      if OnTrack(goal, data, m, p) {
        TrackKeep(settings, c, log, goal, data, m, p);
      }
      var r := FieldChar(header, index, Token(data[p]));
      header, index := r.0, r.1;
      assert View() == Dispatch(settings, c, data[p]).core;
    }

    /** The byte behind a header name: the colon, or an error. */
    method FieldEnd(data: seq<char>, p: nat, m: Marks, ghost goal: Goal, ghost k: Count)
      returns (act: Act, q: nat, m': Marks, ghost k': Count)
      requires Dispatching() && p < |data| && MarksMatch(m, state, p) && state.HeaderField? && !IsToken(data[p])
      modifies this
      ensures old(log) <= log && !errno.HeaderOverflow? && SameBut(k, k')
      ensures q == if act.Advance? then p + 1 else p
      ensures !act.Again? && !act.Exit? && (act.Fail? <==> !errno.Ok?)
      ensures act.Advance? ==> Valid() && MarksMatch(m', state, q)
      ensures act.Advance? && old(OnTrack(goal, data, m, p)) ==> OnTrack(goal, data, m', q)
      ensures act.Fail? && old(OnTrack(goal, data, m, p)) ==> FailsAt(goal, View(), log, p)
      ensures act.Advance? && old(Mid(k, data, p)) ==> Top(k', data, q)
    {
      hide Dispatch, Feed, Slips, Pending, Tracks, MarkDiscipline, StateInv, MarksMatch, Owner, Numbers, MidAt, TopAt,
           RunAt;
      FieldByte(settings, View(), data[p]);
      act, m', k' := DispatchByte(data, p, m, goal, k);
      q := if act.Advance? then p + 1 else p;
    }

    /** The scanning loop over a header name; q is the next position, or the position of the error. */
    method FieldRun(data: seq<char>, p: nat, m: Marks, ghost goal: Goal, ghost k: Count)
      returns (act: Act, q: nat, m': Marks, ghost k': Count)
      requires Dispatching() && p < |data| && MarksMatch(m, state, p) && state.HeaderField?
      modifies this
      ensures old(log) <= log
      ensures p <= q <= |data| && !act.Again? && !act.Exit?
      ensures act.Fail? <==> !errno.Ok?
      ensures act.Advance? ==> p < q && Valid() && MarksMatch(m', state, q)
      ensures act.Advance? && old(OnTrack(goal, data, m, p)) ==> OnTrack(goal, data, m', q)
      ensures act.Fail? && !errno.HeaderOverflow? && old(OnTrack(goal, data, m, p)) ==> FailsAt(goal, View(), log, q)
      ensures SameBut(k, k')
      ensures old(Mid(k, data, p)) ==> !errno.HeaderOverflow? && (act.Advance? ==> Top(k', data, q))
    {
      hide Dispatch, Feed, Slips, Pending, Tracks, MarkDiscipline, StateInv, MarksMatch, Owner, Numbers, MidAt, TopAt,
           RunAt;
      q, k' := p, k;
      ghost var calm := Mid(k, data, p);
      RunStarts(settings, View(), nread, data, p, k);
      while q < |data| && IsToken(data[q])
        invariant p <= q <= |data|
        invariant errno.Ok? && state.HeaderField? && Inv(View()) && nread == old(nread) && log == old(log)
        invariant MarksMatch(m, state, q)
        invariant old(OnTrack(goal, data, m, p)) ==> OnTrack(goal, data, m, q)
        invariant calm ==> RunAt(settings, View(), nread, data, p, q, k)
      {
        if calm {
          FieldByte(settings, View(), data[q]);
          RunKeeps(settings, View(), nread, data, p, q, k);
        }
        FieldCharacter(data, q, m, goal);
        q := q + 1;
      }
      if calm {
        RunRoom(settings, View(), nread, data, p, q, k);
      }
      var ok := CountHeaderSize(q - p);
      if !ok {
        return Fail, q, m, k;
      }
      if q == |data| {
        return Advance, q, m, RunCount(k, p, q);
      }
      act, q, m', k' := FieldEnd(data, q, m, goal, AfterRun(k, p, q));
    }

    /**
     * A character of a header value under header state h, outside the general state; false is the jump to the error
     * label.
     */
    method ValueCharacter(data: seq<char>, p: nat, h: HState, m: Marks, ghost goal: Goal) returns (ok: bool, h': HState)
      requires errno.Ok? && state.HeaderValue? && !h.General? && Inv(View().(header := h)) && p < |data| &&
               MarksMatch(m, state, p)
      requires data[p] != CR && data[p] != LF && (lenient || IsHeaderChar(data[p]))
      modifies this
      ensures log == old(log) && nread == old(nread)
      ensures ok ==> errno.Ok? && state.HeaderValue? && Inv(View().(header := h')) && MarksMatch(m, state, p + 1)
      ensures ok && old(Tracks(settings, View().(header := h), log, goal, data, m, p)) ==>
                Tracks(settings, View().(header := h'), log, goal, data, m, p + 1)
      ensures !ok ==> !errno.Ok? && !errno.HeaderOverflow?
      ensures ok ==> var o := Dispatch(settings, old(View().(header := h)), data[p]);
                     o.act.Advance? && !o.rewind && View().(header := h') == o.core
      ensures !ok && old(Tracks(settings, View().(header := h), log, goal, data, m, p)) ==>
                FailsAt(goal, View(), log, p)
    {
      hide Dispatch, Feed, Slips, Pending, Tracks, MarkDiscipline, StateInv, ValueChar;
      ghost var c := View().(header := h);
      ghost var tracked := Tracks(settings, c, log, goal, data, m, p);
      ValueHeaderKnown(c);
      assert !h.Connection? && !h.TransferEncoding?;
      var o := ValueChar(View().(header := h), data[p]);
      ValueByte(settings, c, data[p]);
      ValueCharShape(c, data[p]);
      DispatchKeeps(settings, c, data[p]);
      ok, h' := !o.act.Fail?, o.core.header;
      if ok {
        if tracked {
          TrackKeep(settings, c, log, goal, data, m, p);
        }
        index, flags, contentLength := o.core.index, o.core.flags, o.core.contentLength;
      } else {
        if tracked {
          TrackFail(settings, c, log, goal, data, m, p);
        }
        Become(o.core);
      }
    }

    /** The CR or LF at q is dispatched with the header state of the scanning loop. */
    method ValueLine(data: seq<char>, q: nat, h: HState, m: Marks, ghost goal: Goal, ghost k: Count)
      returns (act: Act, m': Marks, ghost k': Count)
      requires errno.Ok? && state.HeaderValue? && Inv(View().(header := h)) && nread <= HTTP_MAX_HEADER_SIZE
      requires q < |data| && (data[q] == CR || data[q] == LF) && MarksMatch(m, state, q)
      modifies this
      ensures old(log) <= log && errno.Ok? && nread == old(nread) && k' == k
      ensures state.HeaderAlmostDone? && Inv(View())
      ensures act == if data[q] == CR then Advance else Again
      ensures var next := if act.Advance? then q + 1 else q;
              MarksMatch(m', state, next) &&
              (old(Tracks(settings, View().(header := h), log, goal, data, m, q)) ==> OnTrack(goal, data, m', next))
      ensures old(MidAt(settings, View().(header := h), nread, data, q, k)) ==>
                if act.Advance? then Top(k', data, q + 1) else Mid(k', data, q)
    {
      hide Dispatch, Feed, Slips, Pending, Tracks, MarkDiscipline, StateInv, MidAt, TopAt, MarksMatch, Owner, Numbers;
      ghost var c := View().(header := h);
      ValueLineEnd(settings, c, data[q]);
      header := h;
      assert View() == c;
      act, m', k' := DispatchByte(data, q, m, goal, k);
    }

    /** The CR at q that ends a header value begun at p: the byte counter is brought up to date behind it. */
    method ValueEndCR(data: seq<char>, p: nat, q: nat, h: HState, m: Marks, ghost goal: Goal, ghost k: Count)
      returns (act: Act, next: nat, m': Marks, ghost k': Count)
      requires errno.Ok? && state.HeaderValue? && Inv(View().(header := h)) && nread <= HTTP_MAX_HEADER_SIZE
      requires p <= q < |data| && data[q] == CR && MarksMatch(m, state, q)
      modifies this
      ensures old(log) <= log
      ensures act.Advance? || act.Fail?
      ensures act.Fail? <==> !errno.Ok?
      ensures act.Fail? ==> errno.HeaderOverflow? && next == q
      ensures act.Advance? ==> next == q + 1 && Valid() && MarksMatch(m', state, next)
      ensures !act.Fail? && old(Tracks(settings, View().(header := h), log, goal, data, m, q)) ==>
                OnTrack(goal, data, m', next)
      ensures SameBut(k, k')
      ensures old(RunAt(settings, View().(header := h), nread, data, p, q, k)) ==> act.Advance? && Top(k', data, next)
    {
      hide Dispatch, Feed, Slips, Pending, Tracks, MarkDiscipline, StateInv, RunAt, MidAt, TopAt, MarksMatch, Owner,
           Numbers;
      ghost var c := View().(header := h);
      ghost var calm := RunAt(settings, c, nread, data, p, q, k);
      if calm {
        RunRoom(settings, c, nread, data, p, q, k);
        MidLess(settings, c, nread + (q - p), nread, data, q, AfterRun(k, p, q));
      }
      act, m', k' := ValueLine(data, q, h, m, goal, AfterRun(k, p, q));
      if calm {
        TopMore(settings, View(), nread, nread + (q - p), data, q + 1, k');
      }
      next := q + 1;
      var ok := CountHeaderSize(q - p);
      if !ok {
        return Fail, q, m', k';
      }
    }

    /** The LF at q that ends a header value begun at p, which is dispatched once more. */
    method ValueEndLF(data: seq<char>, p: nat, q: nat, h: HState, m: Marks, ghost goal: Goal, ghost k: Count)
      returns (act: Act, next: nat, m': Marks, ghost k': Count)
      requires errno.Ok? && state.HeaderValue? && Inv(View().(header := h)) && nread <= HTTP_MAX_HEADER_SIZE
      requires p <= q < |data| && data[q] == LF && MarksMatch(m, state, q)
      modifies this
      ensures old(log) <= log && next == q
      ensures act.Again? || act.Fail?
      ensures act.Fail? <==> !errno.Ok?
      ensures act.Fail? ==> errno.HeaderOverflow?
      ensures act.Again? ==> Dispatching() && MarksMatch(m', state, next) && state.HeaderAlmostDone?
      ensures !act.Fail? && old(Tracks(settings, View().(header := h), log, goal, data, m, q)) ==>
                OnTrack(goal, data, m', next)
      ensures SameBut(k, k')
      ensures old(RunAt(settings, View().(header := h), nread, data, p, q, k)) ==> act.Again? && Mid(k', data, next)
    {
      hide Dispatch, Feed, Slips, Pending, Tracks, MarkDiscipline, StateInv, RunAt, MidAt, TopAt, MarksMatch, Owner,
           Numbers;
      ghost var c := View().(header := h);
      if RunAt(settings, c, nread, data, p, q, k) {
        RunRoom(settings, c, nread, data, p, q, k);
      }
      ValueLineEnd(settings, c, data[q]);
      next, m' := q, m;
      var ok := CountHeaderSize(q - p);
      if !ok {
        return Fail, q, m, k;
      }
      header := h;
      assert View() == c;
      act, m', k' := DispatchByte(data, q, m, goal, AfterRun(k, p, q));
    }

    /**
     * The byte at q may not be in a header value: the jump to the error label, without writing the header state back.
     */
    method RejectValue(ghost data: seq<char>, ghost q: nat, ghost h: HState, ghost m: Marks, ghost goal: Goal)
      requires errno.Ok? && state.HeaderValue? && q < |data| && MarksMatch(m, state, q) && Forbidden(View(), data[q])
      modifies this`errno
      ensures errno.InvalidHeaderToken?
      ensures old(Tracks(settings, View().(header := h), log, goal, data, m, q)) ==> FailsAt(goal, View(), log, q)
    {
      hide Dispatch, Feed, Slips, Tracks, MarksMatch;
      ghost var c := View().(header := h);
      ValueByte(settings, c, data[q]);
      if Tracks(settings, c, log, goal, data, m, q) {
        TrackFail(settings, c, log, goal, data, m, q);
      }
      errno := InvalidHeaderToken;
    }

    /** A byte of a header value that does not end it, and the jump from there if the value is a general one. */
    method ValueStep(data: seq<char>, ghost p: nat, q: nat, h: HState, m: Marks, ghost goal: Goal, ghost k: Count)
      returns (ok: bool, next: nat, h': HState, ghost lost: bool)
      requires errno.Ok? && state.HeaderValue? && Inv(View().(header := h)) && p <= q < |data| &&
               MarksMatch(m, state, q)
      requires data[q] != CR && data[q] != LF
      modifies this
      ensures log == old(log) && nread == old(nread)
      ensures ok ==>
                q < next <= |data| && errno.Ok? && state.HeaderValue? && Inv(View().(header := h')) &&
                  MarksMatch(m, state, next)
      ensures ok && old(Tracks(settings, View().(header := h), log, goal, data, m, q)) ==>
                lost || Tracks(settings, View().(header := h'), log, goal, data, m, next) || Slipped(goal, next)
      ensures lost ==> next == |data| && next - q > HTTP_MAX_HEADER_SIZE
      ensures ok && !goal.slips && old(Tracks(settings, View().(header := h), log, goal, data, m, q)) &&
              old(RunAt(settings, View().(header := h), nread, data, p, q, k)) ==>
                !lost && RunAt(settings, View().(header := h'), nread, data, p, next, k)
      ensures !ok ==> next == q && !errno.Ok? && !errno.HeaderOverflow?
      ensures !ok && old(Tracks(settings, View().(header := h), log, goal, data, m, q)) ==>
                FailsAt(goal, View(), log, q)
    {
      hide Dispatch, Feed, Slips, Pending, Tracks, MarkDiscipline, StateInv, ValueChar, MarksMatch, Owner, Numbers,
           RunAt, Jumps, FailsAt;
      ghost var c := View().(header := h);
      ghost var tracked := Tracks(settings, c, log, goal, data, m, q);
      ghost var calm := tracked && !goal.slips && RunAt(settings, c, nread, data, p, q, k);
      lost := false;
      if !lenient && !IsHeaderChar(data[q]) {
        RejectValue(data, q, h, m, goal);
        return false, q, h, false;
      }
      if h.General? {
        next := NextLineEnd(data, q);
        lost := !Bounded(data, q, next);
        if tracked {
          ValueJump(settings, c, log, goal, nread, data, m, p, q, next, k, calm);
        }
        MarksLater(m, state, q, next);
        return true, next, h, lost;
      }
      ok, h' := ValueCharacter(data, q, h, m, goal);
      next := if ok then q + 1 else q;
      if ok && calm {
        RunKeeps(settings, c, nread, data, p, q, k);
      }
    }

    /** The scanning loop over a header value. */
    method ValueRun(data: seq<char>, p: nat, m: Marks, ghost goal: Goal, ghost k: Count)
      returns (act: Act, q: nat, m': Marks, ghost k': Count)
      requires Dispatching() && p < |data| && MarksMatch(m, state, p) && state.HeaderValue?
      modifies this
      ensures old(log) <= log
      ensures p <= q <= |data| && !act.Exit?
      ensures act.Fail? <==> !errno.Ok?
      ensures act.Advance? ==> p < q && Valid() && MarksMatch(m', state, q)
      ensures act.Again? ==> q < |data| && Dispatching() && MarksMatch(m', state, q) && state.HeaderAlmostDone?
      ensures !act.Fail? && Countable(data) && old(OnTrack(goal, data, m, p)) ==>
                OnTrack(goal, data, m', q) || Slipped(goal, q)
      ensures act.Fail? && !errno.HeaderOverflow? && Countable(data) && old(OnTrack(goal, data, m, p)) ==>
                FailsAt(goal, View(), log, q) || Slipped(goal, q)
      ensures SameBut(k, k')
      ensures Countable(data) && !goal.slips && old(OnTrack(goal, data, m, p)) && old(Mid(k, data, p)) ==>
                !errno.HeaderOverflow? && (act.Advance? ==> Top(k', data, q)) && (act.Again? ==> Mid(k', data, q))
    {
      hide Dispatch, Feed, Slips, Pending, Tracks, MarkDiscipline, StateInv, ValueChar, MarksMatch, Owner, Numbers,
           MidAt, TopAt, RunAt, FailsAt, AfterRun;
      q, m', k' := p, m, k;
      var h := header;                       // written back to the field when the loop is left
      ghost var lost := false;               // past the bounded searches
      ghost var tracked := Countable(data) && OnTrack(goal, data, m, p);
      ghost var calm := tracked && !goal.slips && Mid(k, data, p);
      RunStarts(settings, View(), nread, data, p, k);
      while q < |data|
        invariant p <= q <= |data|
        invariant errno.Ok? && state.HeaderValue? && Inv(View().(header := h)) && nread == old(nread) && log == old(log)
        invariant MarksMatch(m, state, q)
        invariant tracked && !lost ==> Tracks(settings, View().(header := h), log, goal, data, m, q) || Slipped(goal, q)
        invariant lost ==> q == |data| && q - p > HTTP_MAX_HEADER_SIZE
        invariant calm ==> tracked && !lost && RunAt(settings, View().(header := h), nread, data, p, q, k)
      {
        var ch := data[q];
        if ch == CR {
          act, q, m', k' := ValueEndCR(data, p, q, h, m, goal, k);
          return;
        } else if ch == LF {
          act, q, m', k' := ValueEndLF(data, p, q, h, m, goal, k);
          return;
        }
        var ok;
        ok, q, h, lost := ValueStep(data, p, q, h, m, goal, k);
        if !ok {
          return Fail, q, m, k;
        }
      }
      header := h;
      if calm {
        RunRoom(settings, View(), nread, data, p, q, k);
      }
      var ok := CountHeaderSize(q - p);
      if !ok {
        return Fail, q, m, k;
      }
      return Advance, q, m, RunCount(k, p, q);
    }

    /** The last block of an identity body, which ends before q; the cursor stays on its last byte. */
    method LastBlock(data: seq<char>, p: nat, m: Marks, ghost goal: Goal, ghost k: Count) returns (q: nat, m': Marks)
      requires Dispatching() && p < |data| && MarksMatch(m, state, p) && state.BodyIdentity? &&
               p + contentLength <= |data|
      modifies this
      ensures old(log) <= log
      ensures p <= q < |data| && Dispatching() && MarksMatch(m', state, q) && state.MessageDone?
      ensures old(OnTrack(goal, data, m, p)) ==> OnTrack(goal, data, m', q)
      ensures old(Mid(k, data, p)) ==> Mid(k, data, q)
    {
      hide Dispatch, Feed, Slips, Tracks, Owner, MarksMatch, StateInv, CalmMid, CalmTop;
      ghost var c, tracked := View(), OnTrack(goal, data, m, p);
      BodyLengthKnown(c);
      ghost var end := p + contentLength;
      if Mid(k, data, p) {
        LastBlockCalm(settings, c, p, end, k);
      }
      q := p + contentLength - 1;
      FeedLastBlock(settings, c, data, p);
      contentLength, state := 0, MessageDone;
      BodyMark(m, c.state, state, p, q);
      if tracked {
        TrackHandedOver(settings, c, View(), log, goal, data, m, p, end, q);
      }
      m' := CallbackData(Body, data, MarkBody(m, p), q + 1);
    }

    /** A block that reaches the end of the segment and leaves some of the declared length. */
    method PartBlock(data: seq<char>, p: nat, m: Marks, ghost goal: Goal, ghost k: Count) returns (q: nat, m': Marks)
      requires Dispatching() && p < |data| && MarksMatch(m, state, p) && |data| - p < contentLength
      requires state.BodyIdentity? || state.ChunkData?
      modifies this
      ensures log == old(log) && q == |data| && Valid() && errno.Ok? && MarksMatch(m', state, q)
      ensures old(OnTrack(goal, data, m, p)) ==> OnTrack(goal, data, m', q)
      ensures old(Mid(k, data, p)) ==> Top(k, data, q)
    {
      hide Dispatch, Feed, Slips, Tracks, Owner, MarksMatch, StateInv, Pending, CalmMid, CalmTop;
      ghost var c, tracked := View(), OnTrack(goal, data, m, p);
      BodyLengthKnown(c);
      q := |data|;
      if Mid(k, data, p) {
        BlockCalm(settings, c, p, q, k);
      }
      m' := MarkBody(m, p);
      contentLength := contentLength - (q - p);
      FeedBodyBlock(settings, c, data, p, q - p);
      BodyMark(m, c.state, state, p, q);
      if tracked {
        TrackGrown(settings, c, View(), log, goal, data, m, p, q);
      }
    }

    /** The block copy of an identity body. */
    method BodyRun(data: seq<char>, p: nat, m: Marks, ghost goal: Goal, ghost k: Count)
      returns (act: Act, q: nat, m': Marks)
      requires Dispatching() && p < |data| && MarksMatch(m, state, p) && state.BodyIdentity?
      modifies this
      ensures old(log) <= log
      ensures p <= q <= |data| && errno.Ok?
      ensures act.Advance? || act.Again?
      ensures act.Advance? ==> p < q && Valid() && MarksMatch(m', state, q)
      ensures act.Again? ==> q < |data| && Dispatching() && MarksMatch(m', state, q) && state.MessageDone?
      ensures old(OnTrack(goal, data, m, p)) ==> OnTrack(goal, data, m', q)
      ensures old(Mid(k, data, p)) ==> if act.Again? then Mid(k, data, q) else Top(k, data, q)
    {
      hide Dispatch, Feed, Slips, Tracks, Owner, MarksMatch, StateInv, MidAt, TopAt;
      BodyLengthKnown(View());
      assert contentLength != 0 && contentLength != ULLONG_MAX;
      var toRead := if contentLength < |data| - p then contentLength else |data| - p;
      if toRead == contentLength {
        q, m' := LastBlock(data, p, m, goal, k);
        act := Again;
      } else {
        q, m' := PartBlock(data, p, m, goal, k);
        act := Advance;
      }
    }

    /** The last block of a chunk. */
    method LastOfChunk(data: seq<char>, p: nat, m: Marks, ghost goal: Goal, ghost k: Count) returns (q: nat, m': Marks)
      requires Dispatching() && p < |data| && MarksMatch(m, state, p) && state.ChunkData? && p + contentLength <= |data|
      modifies this
      ensures log == old(log)
      ensures p < q <= |data| && errno.Ok? && Valid() && MarksMatch(m', state, q)
      ensures old(OnTrack(goal, data, m, p)) ==> OnTrack(goal, data, m', q)
      ensures old(Mid(k, data, p)) ==> Top(k, data, q)
    {
      hide Dispatch, Feed, Slips, Tracks, Owner, MarksMatch, StateInv, Pending, CalmMid, CalmTop;
      ghost var c, tracked := View(), OnTrack(goal, data, m, p);
      BodyLengthKnown(c);
      q := p + contentLength;
      if Mid(k, data, p) {
        LastOfChunkCalm(settings, c, p, q, k);
      }
      m' := MarkBody(m, p);
      contentLength, state := 0, ChunkDataAlmostDone;
      FeedLastOfChunk(settings, c, data, p);
      BodyMark(m, c.state, state, p, q);
      if tracked {
        TrackGrown(settings, c, View(), log, goal, data, m, p, q);
      }
    }

    /** The block copy of a chunk. */
    method ChunkRun(data: seq<char>, p: nat, m: Marks, ghost goal: Goal, ghost k: Count) returns (q: nat, m': Marks)
      requires Dispatching() && p < |data| && MarksMatch(m, state, p) && state.ChunkData?
      modifies this
      ensures old(log) <= log
      ensures p < q <= |data| && errno.Ok? && Valid() && MarksMatch(m', state, q)
      ensures old(OnTrack(goal, data, m, p)) ==> OnTrack(goal, data, m', q)
      ensures old(Mid(k, data, p)) ==> Top(k, data, q)
    {
      hide Dispatch, Feed, Slips, Tracks, Owner, MarksMatch, StateInv, MidAt, TopAt;
      BodyLengthKnown(View());
      assert flags.chunked;
      assert contentLength != 0 && contentLength != ULLONG_MAX;
      var toRead := if contentLength < |data| - p then contentLength else |data| - p;
      if toRead == contentLength {
        q, m' := LastOfChunk(data, p, m, goal, k);
      } else {
        q, m' := PartBlock(data, p, m, goal, k);
      }
    }

    /** A body that lasts until the connection closes: the whole rest of the segment. */
    method EofRun(data: seq<char>, p: nat, m: Marks, ghost goal: Goal, ghost k: Count) returns (q: nat, m': Marks)
      requires Dispatching() && p < |data| && MarksMatch(m, state, p) && state.BodyIdentityEof?
      ensures p < q <= |data| && Valid() && MarksMatch(m', state, q)
      ensures OnTrack(goal, data, m, p) ==> OnTrack(goal, data, m', q)
      ensures Mid(k, data, p) ==> Top(k, data, q)
    {
      hide Dispatch, Feed, Slips, CalmMid, CalmTop;
      m' := MarkBody(m, p);
      q := |data|;
      if Mid(k, data, p) {
        EofCalm(settings, View(), p, q, k);
      }
      FeedUntilEof(settings, View(), data, p);
      NothingLeft(settings, View(), data);
      if OnTrack(goal, data, m, p) {
        assert DataEvents(Body, data[p..q]) + [] == DataEvents(Body, data[p..]);
        TrackGrown(settings, View(), View(), log, goal, data, m, p, q);
      }
    }

    /** The states that copy a block of the body. */
    method CopyBlock(data: seq<char>, p: nat, m: Marks, ghost goal: Goal, ghost k: Count)
      returns (act: Act, q: nat, m': Marks)
      requires Dispatching() && p < |data| && MarksMatch(m, state, p)
      requires state.BodyIdentity? || state.ChunkData? || state.BodyIdentityEof?
      modifies this
      ensures old(log) <= log
      ensures p <= q <= |data| && errno.Ok?
      ensures act.Advance? || act.Again?
      ensures act.Advance? ==> p < q && Valid() && MarksMatch(m', state, q)
      ensures act.Again? ==> q < |data| && Dispatching() && MarksMatch(m', state, q) && Rank(state) < Rank(old(state))
      ensures old(OnTrack(goal, data, m, p)) ==> OnTrack(goal, data, m', q)
      ensures old(Mid(k, data, p)) ==> if act.Again? then Mid(k, data, q) else Top(k, data, q)
    {
      hide Dispatch, Feed, Slips, Tracks, Owner, MarksMatch, StateInv, Numbers, Pending, MidAt, TopAt;
      act := Advance;
      if state.BodyIdentity? {
        act, q, m' := BodyRun(data, p, m, goal, k);
      } else if state.ChunkData? {
        q, m' := ChunkRun(data, p, m, goal, k);
      } else {
        q, m' := EofRun(data, p, m, goal, k);
      }
    }

    /** The byte at p is counted, if it is a header byte. */
    method CountByte(ghost data: seq<char>, ghost p: nat, ghost k: Count) returns (ok: bool, ghost k': Count)
      requires Valid() && errno.Ok? && p < |data|
      modifies this`nread, this`errno
      ensures ok ==> Dispatching() && View() == old(View())
      ensures !ok ==> errno.HeaderOverflow? && Valid()
      ensures SameBut(k, k') && (old(Top(k, data, p)) ==> ok && Mid(k', data, p))
    {
      hide StateInv, Numbers, MidAt, TopAt;
      if Top(k, data, p) {
        ByteCounted(settings, View(), nread, data, p, k);
      }
      k' := if ParsingHeader(state) then k.(n := k.n + 1) else k;
      ok := true;
      if ParsingHeader(state) {
        ok := CountHeaderSize(1);
      }
    }

    /** The assertions of the chunk states whose bytes are dispatched one by one. */
    lemma ChunkAssertions()
      requires Dispatching()
      ensures state.ChunkSizeStart? ==> nread == 1
      ensures state.ChunkSizeStart? || state.ChunkSize? || state.ChunkParameters? || state.ChunkSizeAlmostDone? ==>
                flags.chunked
      ensures state.ChunkDataAlmostDone? || state.ChunkDataDone? ==> flags.chunked
      ensures state.ChunkDataAlmostDone? ==> contentLength == 0
    {
    }

    /** The states whose bytes are dispatched one by one, with the assertions of those of a chunk. */
    method DispatchHere(data: seq<char>, p: nat, m: Marks, ghost goal: Goal, ghost k: Count)
      returns (act: Act, q: nat, m': Marks, ghost k': Count)
      requires Dispatching() && p < |data| && MarksMatch(m, state, p)
      requires !state.BodyIdentity? && !state.HeaderValue?
      modifies this
      ensures old(log) <= log && q == if act.Advance? || act.Exit? then p + 1 else p
      ensures act.Fail? <==> !errno.Ok?
      ensures act.Advance? ==> Valid() && MarksMatch(m', state, q)
      ensures act.Exit? ==> Valid() && upgrade
      ensures act.Again? ==> Dispatching() && Rank(state) < Rank(old(state)) && MarksMatch(m', state, q)
      ensures (act.Advance? || act.Again?) && old(OnTrack(goal, data, m, p)) ==> OnTrack(goal, data, m', q)
      ensures act.Exit? && old(OnTrack(goal, data, m, p)) ==> goal == Goal(Fed(View(), q, log, true), false)
      ensures act.Fail? && old(OnTrack(goal, data, m, p)) ==> FailsAt(goal, View(), log, q)
      ensures !errno.HeaderOverflow? && SameBut(k, k')
      ensures old(Mid(k, data, p)) ==> (act.Again? ==> Mid(k', data, q)) && (act.Advance? ==> Top(k', data, q))
    {
      hide Dispatch, Feed, Slips, StateInv, Owner, Pending, MarksMatch, Tracks, Numbers, MidAt, TopAt, FailsAt;
      ChunkAssertions();
      if state.ChunkSizeStart? {
        assert nread == 1 && flags.chunked;
      } else if state.ChunkSize? || state.ChunkParameters? || state.ChunkSizeAlmostDone? || state.ChunkDataDone? {
        assert flags.chunked;
      } else if state.ChunkDataAlmostDone? {
        assert flags.chunked && contentLength == 0;
      }
      act, m', k' := DispatchByte(data, p, m, goal, k);
      q := if act.Advance? || act.Exit? then p + 1 else p;
    }

    /** The switch on the byte at p, dispatched again until the byte is done with. */
    method Reexecute(data: seq<char>, p: nat, m: Marks, ghost goal: Goal, ghost k: Count)
      returns (act: Act, q: nat, m': Marks, ghost k': Count)
      requires Dispatching() && p < |data| && MarksMatch(m, state, p)
      modifies this
      ensures old(log) <= log
      ensures !act.Again? && p <= q <= |data|
      ensures act.Fail? <==> !errno.Ok?
      ensures act.Advance? ==> p < q && Valid() && MarksMatch(m', state, q)
      ensures act.Exit? ==> p < q && Valid() && upgrade
      ensures act.Advance? && Countable(data) && old(OnTrack(goal, data, m, p)) ==>
                OnTrack(goal, data, m', q) || Slipped(goal, q)
      ensures act.Exit? && Countable(data) && old(OnTrack(goal, data, m, p)) ==>
                goal == Goal(Fed(View(), q, log, true), false) || Slipped(goal, q)
      ensures act.Fail? && !errno.HeaderOverflow? && Countable(data) && old(OnTrack(goal, data, m, p)) ==>
                FailsAt(goal, View(), log, q) || Slipped(goal, q)
      ensures SameBut(k, k')
      ensures Countable(data) && !goal.slips && old(OnTrack(goal, data, m, p)) && old(Mid(k, data, p)) ==>
                !errno.HeaderOverflow? && (act.Advance? ==> Top(k', data, q))
    {
      hide Dispatch, Feed, Slips, Tracks, Owner, MarksMatch, StateInv, Numbers, Pending, MidAt, TopAt, FailsAt;
      q, m', k' := p, m, k;
      ghost var tracked := Countable(data) && OnTrack(goal, data, m, p);
      ghost var calm := tracked && !goal.slips && Mid(k, data, p);
      while true
        invariant p <= q < |data| && Dispatching() && MarksMatch(m', state, q)
        invariant tracked ==> OnTrack(goal, data, m', q) || Slipped(goal, q)
        invariant SameBut(k, k') && (calm ==> Mid(k', data, q))
        invariant old(log) <= log
        decreases Rank(state)
      {
        if state.HeaderField? {
          act, q, m', k' := FieldRun(data, q, m', goal, k');
        } else if state.HeaderValue? {
          act, q, m', k' := ValueRun(data, q, m', goal, k');
        } else if state.BodyIdentity? || state.ChunkData? || state.BodyIdentityEof? {
          act, q, m' := CopyBlock(data, q, m', goal, k');
        } else {
          act, q, m', k' := DispatchHere(data, q, m', goal, k');
        }
        if !act.Again? {
          return;
        }
      }
    }

    /** Hands over what is still marked when the segment is used up; at most one mark is set. */
    method Leftovers(data: seq<char>, m: Marks)
      requires errno.Ok? && MarksMatch(m, state, |data|)
      modifies this`log
      ensures log == old(log) + Pending(m, state, data, |data|)
    {
      assert (if m.field < 0 then 0 else 1) + (if m.value < 0 then 0 else 1) + (if m.url < 0 then 0 else 1) +
             (if m.body < 0 then 0 else 1) + (if m.status < 0 then 0 else 1) <= 1;
      var m' := CallbackData(Field, data, m, |data|);
      m' := CallbackData(Value, data, m', |data|);
      m' := CallbackData(Url, data, m', |data|);
      m' := CallbackData(Body, data, m', |data|);
      m' := CallbackData(StatusLine, data, m', |data|);
    }

    /** The marks at the start of a segment: a piece begun in an earlier segment goes on at position 0. */
    method FirstMarks(ghost data: seq<char>) returns (m: Marks)
      ensures MarksMatch(m, state, 0) && Pending(m, state, data, 0) == []
    {
      m := NO_MARKS;
      if state.HeaderField? {
        m := m.(field := 0);
      } else if state.HeaderValue? {
        m := m.(value := 0);
      } else if IsUrlState(state) {
        m := m.(url := 0);
      } else if state.ResStatus? {
        m := m.(status := 0);
      }
    }

    /** http_parser_execute on the empty segment, which stands for the end of the stream. */
    method ExecuteEof() returns (n: nat)
      requires Valid() && errno.Ok?
      modifies this`errno, this`log
      ensures Valid()
      ensures if EndsHere(state) then n == 0 && errno.Ok? else n == 1 && errno.InvalidEofState?
      ensures log == old(log) + if state.BodyIdentityEof? then [MessageComplete] else []
    {
      match state
      case BodyIdentityEof =>
        log := log + [MessageComplete];
        return 0;
      case Dead | StartReqOrRes | StartRes | StartReq =>
        return 0;
      case _ =>
        errno := InvalidEofState;
        return 1;
    }

    /**
     * http_parser_execute on a non-empty segment. It terminates, its cursor stays inside the segment, none of its
     * assertions fires, and it does what feeding the segment byte by byte does if and only if that feed does not slip,
     * for every segment shorter than the range of the byte counter on which the call reports no header overflow; where
     * the feed slips, the call goes on behind the byte that the feed rejects. It reports no overflow when the
     * byte-by-byte count k of header bytes stays within the limit, which is then kept up in k'.
     */
    method ExecuteSegment(data: seq<char>, ghost k: Count) returns (n: nat, ghost k': Count)
      requires Valid() && errno.Ok? && data != []
      modifies this
      ensures old(log) <= log
      ensures Valid() && n <= |data|
      ensures errno.Ok? && n < |data| ==> upgrade
      ensures Countable(data) && !errno.HeaderOverflow? ==> old(Result(data)).Reached(View(), n, old(log), log)
      ensures SameBut(k, k')
      ensures Countable(data) && !old(Result(data)).slips && old(Top(k, data, 0)) ==>
                !errno.HeaderOverflow? && (!old(Result(data)).feed.stopped ==> Top(k', data, |data|))
    {
      hide Dispatch, Feed, Slips, Tracks, Owner, MarksMatch, StateInv, Numbers, Pending, MidAt, TopAt;
      ghost var goal := Goal(After(log, Feed(settings, View(), data, 0)), Slips(settings, View(), data, 0));
      var m := FirstMarks(data);
      StartTracks(settings, View(), log, data, m);
      var p := 0;
      k' := k;
      ghost var calm := Countable(data) && !goal.slips && Top(k, data, 0);
      while p != |data|
        invariant p <= |data| && errno.Ok? && Valid() && MarksMatch(m, state, p) && old(log) <= log
        invariant Countable(data) ==> OnTrack(goal, data, m, p) || Slipped(goal, p)
        invariant SameBut(k, k') && (calm ==> Top(k', data, p))
        decreases |data| - p
      {
        var ok;
        ok, k' := CountByte(data, p, k');
        if !ok {
          return p, k';
        }
        var act, q;
        act, q, m, k' := Reexecute(data, p, m, goal, k');
        if !act.Advance? {
          return q, k';
        }
        p := q;
      }
      if Countable(data) && !Slipped(goal, p) {
        EndTracks(settings, View(), log, goal, data, m);
      }
      Leftovers(data, m);
      n := |data|;
    }

    /** http_parser_execute: nothing after an error, the end of the stream on the empty segment, else the segment. */
    method Execute(data: seq<char>, ghost k: Count) returns (n: nat, ghost k': Count)
      requires Valid()
      modifies this
      ensures Valid()
      ensures errno.Ok? ==> n <= |data| && (n < |data| ==> upgrade)
      ensures !old(errno).Ok? ==> n == 0 && View() == old(View()) && log == old(log)
      ensures old(errno).Ok? && data == [] ==>
                View() == old(View()).(errno := if EndsHere(old(state)) then Errno.Ok else InvalidEofState) &&
                log == old(log) + if old(state).BodyIdentityEof? then [MessageComplete] else []
      ensures old(errno).Ok? && data != [] && Countable(data) && !errno.HeaderOverflow? ==>
                old(Result(data)).Reached(View(), n, old(log), log)
      ensures old(errno).Ok? && data != [] && Countable(data) && !old(Result(data)).slips && old(Top(k, data, 0)) ==>
                !errno.HeaderOverflow? && (!old(Result(data)).feed.stopped ==> SameBut(k, k') && Top(k', data, |data|))
    {
      k' := k;
      if !errno.Ok? {
        n := 0;
      } else if data == [] {
        n := ExecuteEof();
      } else {
        n, k' := ExecuteSegment(data, k);
      }
    }
  }
}

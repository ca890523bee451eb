/**
 * The invariant behind the parser's internal assertions, and the discipline of its data marks.
 */
module HttpParserInvariant {
  import opened Basics
  import opened HttpChars
  import opened HttpParserTypes
  import opened HttpParserStep
  import opened HttpParserFeed

  /** The integer fields keep to their widths. */
  predicate Numbers(c: Core) {
    c.contentLength < TWO_TO_64 && c.index < 128 && c.major <= 999 && c.minor <= 999 && c.status <= 999
  }

  /** The states about which StateInv says nothing and in which no mark is set. */
  predicate Plain(s: State) {
    match s
    case ReqSchema | ReqSchemaSlash | ReqSchemaSlashSlash | ReqServerStart | ReqServer | ReqServerWithAt => false
    case ReqPath | ReqQueryStringStart | ReqQueryString | ReqFragmentStart | ReqFragment => false
    case ReqMethod | ResStatus | HeaderField | HeaderValue | BodyIdentity | BodyIdentityEof => false
    case ChunkSizeStart | ChunkSize | ChunkParameters | ChunkSizeAlmostDone => false
    case ChunkData | ChunkDataAlmostDone | ChunkDataDone => false
    case _ => true
  }

  function MethodLength(m: Method): nat {
    |MethodString(m)|
  }

  /** What the assertions of the parser say about its state between two dispatches. */
  predicate StateInv(c: Core) {
    match c.state
    case ReqMethod => 1 <= c.index <= MethodLength(c.meth)
    case HeaderField => IsFieldHState(c.header)
    case HeaderValue => IsValueHState(c.header)
    case BodyIdentity => 0 < c.contentLength < ULLONG_MAX
    case ChunkSize | ChunkParameters | ChunkSizeAlmostDone => c.flags.chunked && c.contentLength < ULLONG_MAX
    case ChunkData => c.flags.chunked && 0 < c.contentLength < ULLONG_MAX
    case ChunkDataAlmostDone => c.flags.chunked && c.contentLength == 0
    case ChunkSizeStart | ChunkDataDone => c.flags.chunked
    case _ => true
  }

  predicate Inv(c: Core) {
    Numbers(c) && StateInv(c)
  }

  /** The piece whose mark may be set in a state. */
  function Owner(s: State): Option<Piece> {
    match s
    case ReqSchema | ReqSchemaSlash | ReqSchemaSlashSlash | ReqServerStart | ReqServer | ReqServerWithAt => Some(Url)
    case ReqPath | ReqQueryStringStart | ReqQueryString | ReqFragmentStart | ReqFragment => Some(Url)
    case ResStatus => Some(StatusLine)
    case HeaderField => Some(Field)
    case HeaderValue => Some(Value)
    case BodyIdentity | BodyIdentityEof | ChunkData | ChunkDataAlmostDone => Some(Body)
    case _ => None
  }

  /**
   * What a dispatch does with the marks: a byte it marks leads to a state that owns the mark or is flushed at once;
   * the body apart, an owning state is entered and kept by marking only, and it is left by a flush.
   */
  predicate MarkDiscipline(s: State, o: Out) {
    var before, now := Owner(s), Owner(o.core.state);
    && (o.data.Some? ==> o.notes == [])
    && (o.data.Some? ==>
          (now == o.data && o.act.Advance? && o.flush.None?) || (o.flush == o.data == Some(Body) && s.BodyIdentity?))
    && (o.flush.Some? ==> o.notes == [] && o.flush == before && now != before)
    && (now.Some? && now != Some(Body) ==> o.data == now && o.act.Advance?)
    && (before.Some? && now != before ==> o.flush == before)
    && (before.Some? && now == before ==> o.data == before)
  }

  predicate KeepsAll(c: Core, o: Out) {
    && (o.act.Fail? <==> !o.core.errno.Ok?)
    && !o.core.errno.HeaderOverflow?
    && (!o.act.Fail? ==> Inv(o.core) && MarkDiscipline(c.state, o))
    && (o.core.lenient == c.lenient)
    && (o.act.Exit? ==> o.core.upgrade)
    && (!o.act.Fail? && o.core.state.ChunkSizeStart? ==> o.rewind && o.act.Advance?)
    && (o.act.Again? ==> !o.core.state.HeaderField? && !o.core.state.HeaderValue? && !o.core.state.BodyIdentity?
                           && !o.core.state.ChunkData? && !o.core.state.BodyIdentityEof?)
  }

  lemma PlainRequestStates()
    ensures Plain(Dead) && Plain(StartReqOrRes) && Plain(ResOrRespH) && Plain(StartReq)
    ensures Plain(ReqHttpStart) && Plain(ReqHttpH) && Plain(ReqHttpHT) && Plain(ReqHttpHTT) && Plain(ReqHttpHTTP)
    ensures Plain(ReqFirstMajor) && Plain(ReqMajor) && Plain(ReqFirstMinor) && Plain(ReqMinor) &&
            Plain(ReqLineAlmostDone)
    ensures Plain(HeaderFieldStart)
  {
  }

  lemma PlainResponseStates()
    ensures Plain(StartRes) && Plain(ResH) && Plain(ResHT) && Plain(ResHTT) && Plain(ResHTTP)
    ensures Plain(ResFirstMajor) && Plain(ResMajor) && Plain(ResFirstMinor) && Plain(ResMinor)
    ensures Plain(ResFirstStatusCode) && Plain(ResStatusCode) && Plain(ResStatusStart) && Plain(ResLineAlmostDone)
  {
  }

  lemma PlainOwnsNothing(s: State)
    requires Plain(s)
    ensures Owner(s).None?
  {
  }

  /** A dispatch into a plain state, flushing the mark its state may own. */
  lemma PlainKeeps(c: Core, o: Out)
    requires c.errno.Ok? && o.core.lenient == c.lenient
    requires o.act.Fail? ==> !o.core.errno.Ok? && !o.core.errno.HeaderOverflow?
    requires !o.act.Fail? ==> o.core.errno.Ok? && Numbers(o.core) && Plain(o.core.state) && o.data.None?
    requires o.act.Exit? ==> o.core.upgrade
    requires !o.act.Fail? ==> o.flush == Owner(c.state) && (o.flush.Some? ==> o.notes == [])
    ensures KeepsAll(c, o)
  {
  }

  /** A dispatch that marks its byte and leads to a state that owns the mark. */
  lemma MarkKeeps(c: Core, o: Out)
    requires c.errno.Ok? && o.core.lenient == c.lenient
    requires o.act.Fail? ==> !o.core.errno.Ok? && !o.core.errno.HeaderOverflow?
    requires !o.act.Fail? ==> o.act.Advance? && o.core.errno.Ok? && Inv(o.core) && o.flush.None? && o.notes == []
    requires !o.act.Fail? ==>
               o.data.Some? && Owner(o.core.state) == o.data && (Owner(c.state).None? || Owner(c.state) == o.data)
    ensures KeepsAll(c, o)
  {
  }

  /** A dispatch on a character of a header value. */
  lemma ValueMarkKeeps(c: Core, o: Out)
    requires c.errno.Ok? && o.core.lenient == c.lenient
    requires c.state.HeaderValue? || c.state.HeaderValueStart? || c.state.HeaderValueDiscardWs?
    requires o.act.Fail? ==> !o.core.errno.Ok? && !o.core.errno.HeaderOverflow?
    requires !o.act.Fail? ==> o.act.Advance? && o.core.errno.Ok? && Numbers(o.core) && o.flush.None? && o.notes == []
    requires !o.act.Fail? ==> o.data == Some(Value) && o.core.state.HeaderValue? && IsValueHState(o.core.header)
    ensures KeepsAll(c, o)
  {
  }

  /** A dispatch into ReqMethod. */
  lemma ToMethodKeeps(c: Core, o: Out)
    requires c.errno.Ok? && o.core.lenient == c.lenient && o.core.errno.Ok? && o.act.Advance?
    requires o.core.state.ReqMethod? && Numbers(o.core) && 1 <= o.core.index <= MethodLength(o.core.meth)
    requires o.data.None? && o.flush.None?
    requires IsStartState(c.state) || c.state.ReqMethod?
    ensures KeepsAll(c, o)
  {
  }

  lemma MethodLengths(m: Method)
    ensures 2 < MethodLength(m) < 20
  {
  }

  lemma NextMethodLength(m: Method, index: nat, ch: char)
    ensures NextMethod(m, index, ch).Some? ==> index + 1 <= MethodLength(NextMethod(m, index, ch).value)
  {
  }

  lemma MethodEnd(m: Method, index: nat)
    ensures CharAt(MethodString(m), index) != NUL ==> index < MethodLength(m)
  {
    hide MethodString;
  }

  lemma StartMessageKeeps(c: Core, ch: char)
    requires Inv(c) && c.errno.Ok? && (c.state.StartReq? || c.state.StartRes?)
    ensures KeepsAll(c, DispatchStart(c, ch))
  {
    hide KeepsAll, MethodLength, MethodString, FirstMethod, StateInv, Plain, Owner;
    PlainRequestStates();
    PlainResponseStates();
    PlainOwnsNothing(c.state);
    var o := DispatchStart(c, ch);
    if o.core.state.ReqMethod? && !o.act.Fail? {
      MethodLengths(o.core.meth);
      ToMethodKeeps(c, o);
    } else {
      PlainKeeps(c, o);
    }
  }

  lemma HeadKeeps(c: Core, ch: char)
    requires Inv(c) && c.errno.Ok? && c.state.ResOrRespH?
    ensures KeepsAll(c, DispatchStart(c, ch))
  {
    hide KeepsAll, MethodLength, MethodString, StateInv;
    var o := DispatchStart(c, ch);
    if o.core.state.ReqMethod? {
      MethodLengths(o.core.meth);
      ToMethodKeeps(c, o);
    } else {
      PlainKeeps(c, o);
    }
  }

  lemma StartKeeps(c: Core, ch: char)
    requires Inv(c) && c.errno.Ok? && IsStartState(c.state)
    ensures KeepsAll(c, DispatchStart(c, ch))
  {
    hide KeepsAll, StateInv;
    if c.state.StartReq? || c.state.StartRes? {
      StartMessageKeeps(c, ch);
    } else if c.state.ResOrRespH? {
      HeadKeeps(c, ch);
    } else {
      PlainKeeps(c, DispatchStart(c, ch));
    }
  }

  lemma ExpectKeeps(c: Core, ch: char, want: char, next: State)
    requires Inv(c) && c.errno.Ok? && Owner(c.state).None? && Plain(next)
    ensures KeepsAll(c, Expect(c, ch, want, next))
  {
    hide StateInv, KeepsAll, Plain, Owner;
    PlainKeeps(c, Expect(c, ch, want, next));
  }

  lemma HttpStartKeeps(c: Core, ch: char)
    requires Inv(c) && c.errno.Ok? && c.state.ReqHttpStart?
    ensures KeepsAll(c, DispatchWord(c, ch))
  {
    hide StateInv, KeepsAll, Plain, Owner;
    PlainRequestStates();
    PlainOwnsNothing(c.state);
    PlainKeeps(c, DispatchWord(c, ch));
  }

  lemma WordKeeps(c: Core, ch: char)
    requires Inv(c) && c.errno.Ok? && IsWordState(c.state)
    ensures KeepsAll(c, DispatchWord(c, ch))
  {
    hide StateInv, Numbers, KeepsAll, Plain, Owner, Expect;
    PlainRequestStates();
    PlainResponseStates();
    PlainOwnsNothing(c.state);
    match c.state
    case ResH => ExpectKeeps(c, ch, 'T', ResHT);
    case ResHT => ExpectKeeps(c, ch, 'T', ResHTT);
    case ResHTT => ExpectKeeps(c, ch, 'P', ResHTTP);
    case ResHTTP => ExpectKeeps(c, ch, '/', ResFirstMajor);
    case ReqHttpStart => HttpStartKeeps(c, ch);
    case ReqHttpH => ExpectKeeps(c, ch, 'T', ReqHttpHT);
    case ReqHttpHT => ExpectKeeps(c, ch, 'T', ReqHttpHTT);
    case ReqHttpHTT => ExpectKeeps(c, ch, 'P', ReqHttpHTTP);
    case ReqHttpHTTP => ExpectKeeps(c, ch, '/', ReqFirstMajor);
  }

  lemma VersionDigitKeeps(c: Core, ch: char, end: char, next: State, isMajor: bool)
    requires Inv(c) && c.errno.Ok? && Plain(c.state) && Plain(next)
    ensures KeepsAll(c, Version(c, ch, end, next, isMajor))
  {
    hide StateInv, KeepsAll, Plain, Owner;
    PlainOwnsNothing(c.state);
    var o := Version(c, ch, end, next, isMajor);
    if ch == end || !IsNum(ch) { PlainKeeps(c, o); }
    else if isMajor { PlainKeeps(c, o); }
    else { PlainKeeps(c, o); }
  }

  lemma VersionKeeps(c: Core, ch: char)
    requires Inv(c) && c.errno.Ok? && IsVersionState(c.state)
    ensures KeepsAll(c, DispatchVersion(c, ch))
  {
    hide StateInv, KeepsAll, Version, Plain, Owner;
    PlainRequestStates();
    PlainResponseStates();
    PlainOwnsNothing(c.state);
    if c.state.ResMajor? { VersionDigitKeeps(c, ch, '.', ResFirstMinor, true); }
    else if c.state.ReqMajor? { VersionDigitKeeps(c, ch, '.', ReqFirstMinor, true); }
    else if c.state.ResMinor? { VersionDigitKeeps(c, ch, ' ', ResFirstStatusCode, false); }
    else if c.state.ReqMinor? && ch != CR { VersionDigitKeeps(c, ch, LF, HeaderFieldStart, false); }
    else { PlainKeeps(c, DispatchVersion(c, ch)); }
  }

  lemma StatusCodeKeeps(c: Core, ch: char)
    requires Inv(c) && c.errno.Ok? &&
             (c.state.ResFirstStatusCode? || c.state.ResStatusCode? || c.state.ResLineAlmostDone?)
    ensures KeepsAll(c, DispatchStatus(c, ch))
  {
    hide StateInv, KeepsAll, Plain, Owner;
    PlainRequestStates();
    PlainResponseStates();
    PlainOwnsNothing(c.state);
    PlainKeeps(c, DispatchStatus(c, ch));
  }

  lemma StatusTextKeeps(c: Core, ch: char)
    requires Inv(c) && c.errno.Ok? && (c.state.ResStatusStart? || c.state.ResStatus?)
    ensures KeepsAll(c, DispatchStatus(c, ch))
  {
    hide KeepsAll;
    if ch != CR && ch != LF {
      MarkKeeps(c, DispatchStatus(c, ch));
    } else {
      hide StateInv;
      PlainKeeps(c, DispatchStatus(c, ch));
    }
  }

  lemma UrlCharKeeps(c: Core, s: State)
    requires Inv(c) && c.errno.Ok? && (c.state.ReqSpacesBeforeUrl? || IsUrlState(c.state))
    requires s.Dead? || IsUrlState(s)
    ensures KeepsAll(c, UrlChar(c, s))
  {
  }

  lemma MethodCharKeeps(c: Core, ch: char)
    requires Inv(c) && c.errno.Ok? && c.state.ReqMethod?
    ensures KeepsAll(c, MethodChar(c, ch))
  {
    hide KeepsAll, MethodLength, MethodString, NextMethod;
    var o := MethodChar(c, ch);
    if o.core.state.ReqMethod? && !o.act.Fail? {
      MethodEnd(c.meth, c.index);
      NextMethodLength(c.meth, c.index, ch);
      MethodLengths(o.core.meth);
      ToMethodKeeps(c, o);
    } else {
      hide StateInv;
      PlainKeeps(c, o);
    }
  }

  lemma MethodKeeps(c: Core, ch: char)
    requires Inv(c) && c.errno.Ok? && IsMethodState(c.state)
    ensures KeepsAll(c, DispatchMethod(c, ch))
  {
    hide KeepsAll, MethodChar, ParseUrlChar;
    if c.state.ReqMethod? {
      MethodCharKeeps(c, ch);
    } else if c.state.ReqSpacesBeforeUrl? && ch != ' ' {
      UrlCharKeeps(c, ParseUrlChar(if c.meth.CONNECT? then ReqServerStart else ReqSpacesBeforeUrl, ch));
    } else {
      hide StateInv;
      PlainKeeps(c, DispatchMethod(c, ch));
    }
  }

  lemma UrlKeeps(c: Core, ch: char)
    requires Inv(c) && c.errno.Ok? && IsUrlState(c.state)
    ensures KeepsAll(c, DispatchUrl(c, ch))
  {
    hide ParseUrlChar, KeepsAll;
    if ch == ' ' || ch == CR || ch == LF {
      hide StateInv;
      PlainKeeps(c, DispatchUrl(c, ch));
    } else {
      UrlCharKeeps(c, ParseUrlChar(c.state, ch));
    }
  }

  lemma FieldStartKeeps(c: Core, ch: char)
    requires Inv(c) && c.errno.Ok? && c.state.HeaderFieldStart?
    ensures KeepsAll(c, DispatchField(c, ch))
  {
    hide KeepsAll, Token;
    if IsToken(ch) && ch != CR && ch != LF {
      MarkKeeps(c, DispatchField(c, ch));
    } else {
      hide StateInv;
      PlainKeeps(c, DispatchField(c, ch));
    }
  }

  lemma FieldKeeps(c: Core, ch: char)
    requires Inv(c) && c.errno.Ok? && c.state.HeaderField?
    ensures KeepsAll(c, DispatchField(c, ch))
  {
    hide KeepsAll, Token, MatchWord;
    if IsToken(ch) {
      MarkKeeps(c, DispatchField(c, ch));
    } else {
      hide StateInv;
      PlainKeeps(c, DispatchField(c, ch));
    }
  }

  lemma ValueStartKeeps(c: Core, ch: char)
    requires Inv(c) && c.errno.Ok? && (c.state.HeaderValueStart? || c.state.HeaderValueDiscardWs?)
    ensures KeepsAll(c, ValueStart(c, ch))
  {
    hide KeepsAll, Lower, StateInv;
    ValueMarkKeeps(c, ValueStart(c, ch));
  }

  lemma DiscardLwsKeeps(c: Core, ch: char)
    requires Inv(c) && c.errno.Ok? && c.state.HeaderValueDiscardLws?
    ensures KeepsAll(c, DispatchBeforeValue(c, ch))
  {
    hide KeepsAll, StateInv;
    PlainKeeps(c, DispatchBeforeValue(c, ch));
  }

  lemma BeforeValueKeeps(c: Core, ch: char)
    requires Inv(c) && c.errno.Ok? && IsBeforeValueState(c.state)
    ensures KeepsAll(c, DispatchBeforeValue(c, ch))
  {
    hide ValueStart, KeepsAll;
    if c.state.HeaderValueDiscardLws? {
      DiscardLwsKeeps(c, ch);
    } else if c.state.HeaderValueStart? ||
      (c.state.HeaderValueDiscardWs? && ch != ' ' && ch != '\t' && ch != CR && ch != LF) {
      ValueStartKeeps(c, ch);
    } else {
      hide StateInv;
      PlainKeeps(c, DispatchBeforeValue(c, ch));
    }
  }

  predicate IsWordMatching(h: HState) {
    h.MatchingTransferEncodingChunked? || h.MatchingConnectionKeepAlive? || h.MatchingConnectionClose? ||
      h.MatchingConnectionUpgrade?
  }

  lemma ValueWordKeeps(c: Core, ch: char)
    requires Inv(c) && c.errno.Ok? && c.state.HeaderValue? && IsWordMatching(c.header)
    ensures KeepsAll(c, ValueChar(c, ch))
  {
    hide KeepsAll, Lower, Token, MatchWord;
    ValueMarkKeeps(c, ValueChar(c, ch));
  }

  lemma ValueTokenKeeps(c: Core, ch: char)
    requires Inv(c) && c.errno.Ok? && c.state.HeaderValue?
    requires c.header.MatchingConnectionTokenStart? || c.header.MatchingConnectionToken?
    ensures KeepsAll(c, ValueChar(c, ch))
  {
    hide KeepsAll, Lower, Token, MatchWord;
    ValueMarkKeeps(c, ValueChar(c, ch));
  }

  lemma ValueCharKeeps(c: Core, ch: char)
    requires Inv(c) && c.errno.Ok? && c.state.HeaderValue?
    ensures KeepsAll(c, ValueChar(c, ch))
  {
    hide KeepsAll, Lower, Token, MatchWord;
    if IsWordMatching(c.header) {
      ValueWordKeeps(c, ch);
    } else if c.header.MatchingConnectionTokenStart? || c.header.MatchingConnectionToken? {
      ValueTokenKeeps(c, ch);
    } else if c.header.General? || c.header.ContentLength? {
      ValueMarkKeeps(c, ValueChar(c, ch));
    } else {
      ValueMarkKeeps(c, ValueChar(c, ch));
    }
  }

  lemma ValueKeeps(c: Core, ch: char)
    requires Inv(c) && c.errno.Ok? && IsValueState(c.state)
    ensures KeepsAll(c, DispatchValue(c, ch))
  {
    hide ValueChar, KeepsAll;
    if c.state.HeaderValue? && ch != CR && ch != LF && (c.lenient || IsHeaderChar(ch)) {
      ValueCharKeeps(c, ch);
    } else {
      hide StateInv;
      PlainKeeps(c, DispatchValue(c, ch));
    }
  }

  lemma HeadersEndKeeps(cfg: Settings, c: Core, ch: char)
    requires Inv(c) && c.errno.Ok? && c.state.HeadersAlmostDone?
    ensures KeepsAll(c, HeadersEnd(cfg, c, ch))
  {
    hide KeepsAll, StateInv;
    PlainKeeps(c, HeadersEnd(cfg, c, ch));
  }

  lemma HeadersDoneKeeps(c: Core, ch: char)
    requires Inv(c) && c.errno.Ok? && c.state.HeadersDone?
    ensures KeepsAll(c, HeadersDoneChar(c, ch))
  {
    hide ShouldKeepAlive;
  }

  lemma IdentityKeeps(c: Core, ch: char)
    requires Inv(c) && c.errno.Ok? && IsIdentityState(c.state)
    ensures KeepsAll(c, DispatchIdentity(c, ch))
  {
    hide ShouldKeepAlive;
  }

  lemma ChunkDigitKeeps(c: Core, ch: char)
    requires Inv(c) && c.errno.Ok? && (c.state.ChunkSizeStart? || c.state.ChunkSize?)
    ensures KeepsAll(c, DispatchChunkSize(c, ch))
  {
    hide Unhex;
    if c.state.ChunkSize? {
    }
  }

  lemma ChunkSizeKeeps(c: Core, ch: char)
    requires Inv(c) && c.errno.Ok? && IsChunkSizeState(c.state)
    ensures KeepsAll(c, DispatchChunkSize(c, ch))
  {
    if c.state.ChunkSizeStart? || c.state.ChunkSize? {
      hide KeepsAll;
      ChunkDigitKeeps(c, ch);
    } else {
    }
  }

  lemma ChunkDataKeeps(c: Core, ch: char)
    requires Inv(c) && c.errno.Ok? && IsChunkDataState(c.state)
    ensures KeepsAll(c, DispatchChunkData(c, ch))
  {
  }

  /** Every dispatch keeps the invariant, from every state and on every byte. */
  lemma DispatchKeeps(cfg: Settings, c: Core, ch: char)
    requires Inv(c) && c.errno.Ok?
    ensures KeepsAll(c, Dispatch(cfg, c, ch))
  {
    hide KeepsAll;
    if IsStartState(c.state) { StartKeeps(c, ch); }
    else if IsWordState(c.state) { WordKeeps(c, ch); }
    else if IsVersionState(c.state) { VersionKeeps(c, ch); }
    else if c.state.ResStatusStart? || c.state.ResStatus? { StatusTextKeeps(c, ch); }
    else if IsStatusState(c.state) { StatusCodeKeeps(c, ch); }
    else if IsMethodState(c.state) { MethodKeeps(c, ch); }
    else if IsUrlState(c.state) { UrlKeeps(c, ch); }
    else if c.state.HeaderField? { FieldKeeps(c, ch); }
    else if c.state.HeaderFieldStart? { FieldStartKeeps(c, ch); }
    else if IsBeforeValueState(c.state) { BeforeValueKeeps(c, ch); }
    else if IsValueState(c.state) { ValueKeeps(c, ch); }
    else if c.state.HeadersAlmostDone? { HeadersEndKeeps(cfg, c, ch); }
    else if c.state.HeadersDone? { HeadersDoneKeeps(c, ch); }
    else if IsIdentityState(c.state) { IdentityKeeps(c, ch); }
    else if IsChunkSizeState(c.state) { ChunkSizeKeeps(c, ch); }
    else { ChunkDataKeeps(c, ch); }
  }

  /** All dispatches of one byte. */
  lemma {:induction false} FeedByteKeeps(cfg: Settings, c: Core, ch: char)
    requires Inv(c) && c.errno.Ok?
    ensures var r := FeedByte(cfg, c, ch);
            (r.act.Fail? <==> !r.core.errno.Ok?) && (!r.act.Fail? ==> Inv(r.core)) && r.core.lenient == c.lenient
    decreases Rank(c.state)
  {
    hide Dispatch, StateInv, Numbers, MarkDiscipline;
    DispatchKeeps(cfg, c, ch);
    var o := Dispatch(cfg, c, ch);
    if o.act.Again? {
      FeedByteKeeps(cfg, o.core, ch);
    }
  }

  /** What a caller can see beforehand: a byte that a header value may not hold. In lenient mode there is none. */
  lemma {:induction false} NoSlip(cfg: Settings, c: Core, data: seq<char>, p: nat)
    requires Inv(c) && c.errno.Ok? && p <= |data| && forall i :: p <= i < |data| ==> !Forbidden(c, data[i])
    ensures !Slips(cfg, c, data, p)
    decreases |data| - p
  {
    hide FeedByte, StateInv, Numbers;
    if p < |data| {
      FeedByteKeeps(cfg, c, data[p]);
      var r := FeedByte(cfg, c, data[p]);
      if r.act.Advance? {
        NoSlip(cfg, r.core, data, p + 1);
      }
    }
  }
}

/**
 * Message bodies as the parser delivers them: a body of declared length, and the chunked coding of section 4.1 of
 * RFC 7230, decoded from any way of cutting the body into chunks and of writing their sizes.
 */
module HttpFraming {
  import opened Basics
  import opened HttpChars
  import opened HttpParserTypes
  import opened HttpParserStep
  import opened HttpParserFeed
  import opened HttpParserCount
  import opened HttpNumbers
  import opened Dechex

  /** Hexadecimal digits of either case for the number n, with any zeros before them, that pass the guard. */
  predicate IsSize(s: seq<char>, n: nat) {
    s != [] && (forall i :: 0 <= i < |s| ==> IsHex(s[i])) && SizeFits(0, s) && Hexadecimal(0, s) == n
  }

  /** Nothing, or anything up to the line end that is set off from the size. */
  predicate IsExtension(ext: seq<char>) {
    ext == [] || ((ext[0] == ';' || ext[0] == ' ') && CR !in ext)
  }

  /** One chunk as it is written: its size, an extension, the data. */
  datatype ChunkText = ChunkText(size: seq<char>, ext: seq<char>, data: seq<char>) {
    predicate Fits() {
      IsSize(size, |data|) && IsExtension(ext)
    }

    function Text(): seq<char> {
      size + ext + CRLF + data + CRLF
    }
  }

  /** The chunks of a body, and the one without data that ends it. */
  function Coded(chunks: seq<ChunkText>, last: ChunkText): seq<char> {
    if chunks == [] then last.Text() else chunks[0].Text() + Coded(chunks[1..], last)
  }

  predicate WellCoded(chunks: seq<ChunkText>, last: ChunkText) {
    (forall i :: 0 <= i < |chunks| ==> chunks[i].Fits() && chunks[i].data != []) && last.Fits() && last.data == []
  }

  function Datas(chunks: seq<ChunkText>): seq<seq<char>> {
    if chunks == [] then [] else [chunks[0].data] + Datas(chunks[1..])
  }

  // a sender's own way of writing it

  const LAST_CHUNK: string := "0\r\n\r\n"
  const LAST: ChunkText := ChunkText("0", [], [])

  function Plain(d: seq<char>): ChunkText {
    ChunkText(HexOf(|d|), [], d)
  }

  function Plains(chunks: seq<seq<char>>): seq<ChunkText> {
    if chunks == [] then [] else [Plain(chunks[0])] + Plains(chunks[1..])
  }

  /** One chunk: its size in hexadecimal, the data, each followed by CRLF. */
  function Chunk(d: seq<char>): seq<char> {
    HexOf(|d|) + CRLF + d + CRLF
  }

  function Chunked(chunks: seq<seq<char>>): seq<char> {
    if chunks == [] then LAST_CHUNK else Chunk(chunks[0]) + Chunked(chunks[1..])
  }

  function Concat(chunks: seq<seq<char>>): seq<char> {
    if chunks == [] then [] else chunks[0] + Concat(chunks[1..])
  }

  /** The trace of one chunk. */
  function ChunkEvents(d: seq<char>): seq<Event> {
    [ChunkHeader(|d|)] + DataEvents(Body, d) + [ChunkComplete]
  }

  function AllChunkEvents(chunks: seq<seq<char>>): seq<Event> {
    if chunks == [] then [ChunkHeader(0), ChunkComplete,
                          MessageComplete] else ChunkEvents(chunks[0]) + AllChunkEvents(chunks[1..])
  }

  /** The body bytes of a trace, in order. */
  function BodyBytes(es: seq<Event>): seq<char> {
    if es == [] then []
    else (match es[0] case Data(Body, b) => [b] case _ => []) + BodyBytes(es[1..])
  }

  function Completions(es: seq<Event>): nat {
    if es == [] then 0 else (if es[0].MessageComplete? then 1 else 0) + Completions(es[1..])
  }

  lemma {:induction false} BodyBytesConcat(a: seq<Event>, b: seq<Event>)
    ensures BodyBytes(a + b) == BodyBytes(a) + BodyBytes(b)
    ensures Completions(a + b) == Completions(a) + Completions(b)
  {
    if a == [] {
      assert a + b == b;
    } else {
      assert (a + b)[1..] == a[1..] + b;
      BodyBytesConcat(a[1..], b);
    }
  }

  lemma {:induction false} BodyBytesOfData(d: seq<char>)
    ensures BodyBytes(DataEvents(Body, d)) == d && Completions(DataEvents(Body, d)) == 0
  {
    if d != [] {
      assert DataEvents(Body, d)[1..] == DataEvents(Body, d[1..]);
      BodyBytesOfData(d[1..]);
    }
  }

  lemma ChunkBody(d: seq<char>)
    ensures BodyBytes(ChunkEvents(d)) == d && Completions(ChunkEvents(d)) == 0
  {
    BodyBytesOfData(d);
    BodyBytesConcat([ChunkHeader(|d|)] + DataEvents(Body, d), [ChunkComplete]);
    BodyBytesConcat([ChunkHeader(|d|)], DataEvents(Body, d));
    assert BodyBytes([ChunkHeader(|d|)]) == [] && BodyBytes([ChunkComplete]) == [];
  }

  lemma {:induction false} AllChunksBody(chunks: seq<seq<char>>)
    ensures BodyBytes(AllChunkEvents(chunks)) == Concat(chunks)
    ensures Completions(AllChunkEvents(chunks)) == 1
  {
    if chunks == [] {
      var es := [ChunkHeader(0), ChunkComplete, MessageComplete];
      assert es[1..] == [ChunkComplete, MessageComplete] && es[1..][1..] == [MessageComplete] &&
        es[1..][1..][1..] == [];
    } else {
      ChunkBody(chunks[0]);
      AllChunksBody(chunks[1..]);
      BodyBytesConcat(ChunkEvents(chunks[0]), AllChunkEvents(chunks[1..]));
    }
  }

  // ---------------------------------------------------------------- feeding a chunk

  const MAX_CHUNK: nat := 0xFFFF_FFFF_FFFF_FFEF

  lemma {:induction false} HexOfFits(n: nat)
    requires n <= MAX_CHUNK
    ensures SizeFits(0, HexOf(n))
  {
    var s := HexOf(n);
    if n != 0 {
      HexOfFits(n / 16);
      HexOfValue(n / 16);
      assert s[..|s| - 1] == HexOf(n / 16);
      assert forall i :: 0 <= i < |s| - 1 ==> s[..i] == HexOf(n / 16)[..i];
    }
  }

  lemma PlainFits(d: seq<char>)
    requires 0 < |d| <= MAX_CHUNK
    ensures Plain(d).Fits() && Plain(d).Text() == Chunk(d)
  {
    hide SizeFits, Hexadecimal, HexOf;
    HexOfFits(|d|);
    HexOfValue(|d|);
    assert HexOf(|d|) + [] == HexOf(|d|);
  }

  lemma LastFits()
    ensures LAST.Fits() && LAST.Text() == LAST_CHUNK
  {
    assert "0"[..0] == [];
    assert Hexadecimal(0, "0") == Hexadecimal(0, "0"[..0]) * 16 + Unhex('0') == 0;
  }

  /** What a sender writes is a coding. */
  lemma {:induction false} PlainCoded(chunks: seq<seq<char>>)
    requires forall i :: 0 <= i < |chunks| ==> 0 < |chunks[i]| <= MAX_CHUNK
    ensures WellCoded(Plains(chunks), LAST) && Coded(Plains(chunks), LAST) == Chunked(chunks)
    ensures Datas(Plains(chunks)) == chunks
  {
    hide ChunkText.Fits, ChunkText.Text, Chunk;
    LastFits();
    if chunks != [] {
      PlainFits(chunks[0]);
      PlainCoded(chunks[1..]);
      assert Plains(chunks)[1..] == Plains(chunks[1..]);
    }
  }

  /** The states of a size line, up to its line end. */
  predicate InSizeLine(s: State) {
    s.ChunkSizeStart? || s.ChunkSize? || s.ChunkParameters?
  }

  lemma ExtensionByte(cfg: Settings, c: Core, ch: char)
    requires ch != CR
    ensures c.state.ChunkParameters? ==> Dispatch(cfg, c, ch) == To(c, ChunkParameters)
    ensures c.state.ChunkSize? && (ch == ';' || ch == ' ') ==> Dispatch(cfg, c, ch) == To(c, ChunkParameters)
  {
  }

  lemma {:induction false} FeedExtension(cfg: Settings, c: Core, ext: seq<char>, p: nat)
    requires p <= |ext| && CR !in ext
    requires if p == 0 then c.state.ChunkSize? && IsExtension(ext) else c.state.ChunkParameters?
    ensures Feed(cfg, c, ext, p) == Fed(if ext == [] then c else c.(state := ChunkParameters), |ext|, [], false)
    decreases |ext| - p
  {
    hide Dispatch, Feed, Slips, SlipsAt;
    if p == |ext| {
      NothingLeft(cfg, c, ext);
    } else {
      ExtensionByte(cfg, c, ext[p]);
      FeedAdvance(cfg, c, ext, p);
      FeedExtension(cfg, c.(state := ChunkParameters), ext, p + 1);
    }
  }

  /** The parser at the end of a size line. */
  function Sized(c: Core, k: ChunkText): Core {
    c.(state := if k.ext == [] then ChunkSize else ChunkParameters, contentLength := |k.data|)
  }

  /** A size and its extension leave exactly the number of the data's bytes in the parser. */
  lemma FeedSize(cfg: Settings, c: Core, k: ChunkText)
    requires c.state.ChunkSizeStart? && k.Fits()
    ensures Feed(cfg, c, k.size + k.ext, 0) == Fed(Sized(c, k), |k.size + k.ext|, [], false)
  {
    hide Dispatch, Feed, Slips, SlipsAt, SizeFits, Hexadecimal;
    var c1 := c.(state := ChunkSize, contentLength := |k.data|);
    WholeSize(cfg, c, k.size);
    FeedExtension(cfg, c1, k.ext, 0);
    FeedBoth(cfg, c, k.size, c1, [], k.ext, Feed(cfg, c1, k.ext, 0));
  }

  lemma ChunkByte(cfg: Settings, c: Core, ch: char)
    ensures (c.state.ChunkSize? || c.state.ChunkParameters?) && ch == CR ==>
              Dispatch(cfg, c, ch) == To(c, ChunkSizeAlmostDone)
    ensures c.state.ChunkSizeAlmostDone? && ch == LF ==>
              Dispatch(cfg, c, ch) == (if c.contentLength == 0
                                       then Note(c.(flags := c.flags.(trailing := true)), HeaderFieldStart,
                                                 ChunkHeader(0))
                                       else Note(c, ChunkData, ChunkHeader(c.contentLength))).(rewind := true)
    ensures c.state.ChunkDataAlmostDone? && ch == CR ==> Dispatch(cfg, c, ch) == Flush(c, ChunkDataDone, Body)
    ensures c.state.ChunkDataDone? && ch == LF ==>
              Dispatch(cfg, c, ch) == Note(c, ChunkSizeStart, ChunkComplete).(rewind := true)
  {
  }

  /** Two bytes, neither of which is dispatched twice or ends the call. */
  lemma FeedTwo(cfg: Settings, c: Core, c1: Core, c2: Core, s: seq<char>, e1: seq<Event>, e2: seq<Event>)
    requires |s| == 2
    requires var o := Dispatch(cfg, c, s[0]); o.act.Advance? && o.core == c1 && OutEvents(o, s[0]) == e1
    requires var o := Dispatch(cfg, c1, s[1]); o.act.Advance? && o.core == c2 && OutEvents(o, s[1]) == e2
    ensures Feed(cfg, c, s, 0) == Fed(c2, 2, e1 + e2, false)
  {
    hide Dispatch, Feed, Slips, SlipsAt;
    FeedAdvance(cfg, c, s, 0);
    FeedAdvance(cfg, c1, s, 1);
    NothingLeft(cfg, c2, s);
    assert e2 + [] == e2;
  }

  lemma FeedSizeEnd(cfg: Settings, c: Core)
    requires (c.state.ChunkSize? || c.state.ChunkParameters?) && 0 < c.contentLength
    ensures Feed(cfg, c, CRLF, 0) == Fed(c.(state := ChunkData), 2, [ChunkHeader(c.contentLength)], false)
  {
    hide Dispatch, Feed, Slips, SlipsAt;
    var c1 := c.(state := ChunkSizeAlmostDone);
    ChunkByte(cfg, c, CR);
    ChunkByte(cfg, c1, LF);
    FeedTwo(cfg, c, c1, c.(state := ChunkData), CRLF, [], [ChunkHeader(c.contentLength)]);
  }

  lemma FeedDataEnd(cfg: Settings, c: Core)
    requires c.state.ChunkDataAlmostDone?
    ensures Feed(cfg, c, CRLF, 0) == Fed(c.(state := ChunkSizeStart), 2, [ChunkComplete], false)
  {
    hide Dispatch, Feed, Slips, SlipsAt;
    var c1 := c.(state := ChunkDataDone);
    ChunkByte(cfg, c, CR);
    ChunkByte(cfg, c1, LF);
    FeedTwo(cfg, c, c1, c.(state := ChunkSizeStart), CRLF, [], [ChunkComplete]);
  }

  lemma FeedChunkData(cfg: Settings, c: Core, d: seq<char>)
    requires c.state.ChunkData? && c.contentLength == |d| > 0
    ensures Feed(cfg, c, d, 0) == Fed(c.(contentLength := 0, state := ChunkDataAlmostDone), |d|, DataEvents(Body, d),
                                      false)
  {
    hide Dispatch, Feed, Slips, SlipsAt;
    FeedLastOfChunk(cfg, c, d, 0);
    assert d[0..0 + |d|] == d;
    NothingLeft(cfg, c.(contentLength := 0, state := ChunkDataAlmostDone), d);
  }

  /**
   * One chunk, in whatever way its size is written and with any extension: its bytes are delivered between a chunk
   * header and a chunk completion, and the parser is back at a size.
   */
  lemma FeedChunk(cfg: Settings, c: Core, k: ChunkText)
    requires c.state.ChunkSizeStart? && k.Fits() && k.data != []
    ensures Feed(cfg, c, k.Text(), 0) == Fed(c.(contentLength := 0), |k.Text()|, ChunkEvents(k.data), false)
  {
    hide Dispatch, Feed, Slips, SlipsAt, IsSize, IsExtension;
    var d, head := k.data, k.size + k.ext;
    var c1 := Sized(c, k);
    var c2 := c.(state := ChunkData, contentLength := |d|);
    var c3 := c.(contentLength := 0, state := ChunkDataAlmostDone);
    var c4 := c.(contentLength := 0);
    FeedSize(cfg, c, k);
    FeedSizeEnd(cfg, c1);
    FeedBoth(cfg, c, head, c1, [], CRLF, Fed(c2, 2, [ChunkHeader(|d|)], false));
    FeedChunkData(cfg, c2, d);
    FeedBoth(cfg, c, head + CRLF, c2, [ChunkHeader(|d|)], d, Fed(c3, |d|, DataEvents(Body, d), false));
    FeedDataEnd(cfg, c3);
    FeedBoth(cfg, c, head + CRLF + d, c3, [ChunkHeader(|d|)] + DataEvents(Body, d), CRLF,
             Fed(c4, 2, [ChunkComplete], false));
  }

  // ---------------------------------------------------------------- the end of a body

  /** The parser once a message is complete. */
  function Completed(c: Core): Core {
    c.(state := NewMessage(c))
  }

  lemma DoneByte(cfg: Settings, c: Core, ch: char)
    requires c.state.MessageDone?
    ensures Dispatch(cfg, c, ch) == Out(Completed(c), if c.upgrade then Exit else Advance, None, None,
                                        [MessageComplete], false)
  {
  }

  lemma FeedDone(cfg: Settings, c: Core, data: seq<char>, p: nat)
    requires c.state.MessageDone? && p + 1 == |data|
    ensures Feed(cfg, c, data, p) == Fed(Completed(c), |data|, [MessageComplete], c.upgrade)
  {
    hide Dispatch, Feed, Slips, SlipsAt, NewMessage;
    DoneByte(cfg, c, data[p]);
    if c.upgrade {
      FeedExit(cfg, c, data, p);
    } else {
      FeedAdvance(cfg, c, data, p);
      NothingLeft(cfg, Completed(c), data);
    }
  }

  /**
   * A body of declared length: exactly its bytes are delivered, then the message is complete, with no byte left over.
   */
  lemma FeedIdentity(cfg: Settings, c: Core, d: seq<char>)
    requires c.state.BodyIdentity? && c.contentLength == |d| > 0
    ensures var done := c.(contentLength := 0, state := MessageDone);
            Feed(cfg, c, d, 0) == Fed(Completed(done), |d|, DataEvents(Body, d) + [MessageComplete], c.upgrade)
  {
    hide Dispatch, Feed, Slips, SlipsAt, NewMessage;
    FeedLastBlock(cfg, c, d, 0);
    assert d[0..0 + |d|] == d;
    FeedDone(cfg, c.(contentLength := 0, state := MessageDone), d, |d| - 1);
  }

  lemma TrailerByte(cfg: Settings, c: Core)
    requires c.flags.trailing
    ensures c.state.HeaderFieldStart? ==> Dispatch(cfg, c, CR) == To(c, HeadersAlmostDone)
    ensures c.state.HeadersAlmostDone? ==>
              Dispatch(cfg, c, LF) == Out(c.(state := MessageDone), Again, None, None, [ChunkComplete], false)
  {
  }

  /** The two line ends behind the size of the last chunk: the message is complete at the last byte. */
  lemma FeedLastEnds(cfg: Settings, c: Core)
    requires (c.state.ChunkSize? || c.state.ChunkParameters?) && c.contentLength == 0
    ensures var done := c.(flags := c.flags.(trailing := true), state := MessageDone);
            Feed(cfg, c, CRLF + CRLF, 0) == Fed(Completed(done), 4, [ChunkHeader(0), ChunkComplete, MessageComplete],
                                                c.upgrade)
  {
    hide Dispatch, Feed, Slips, SlipsAt, NewMessage, Unhex;
    var s := CRLF + CRLF;
    var c2 := c.(state := ChunkSizeAlmostDone);
    var c3 := c.(flags := c.flags.(trailing := true), state := HeaderFieldStart);
    var c4 := c3.(state := HeadersAlmostDone);
    ChunkByte(cfg, c, CR);
    FeedAdvance(cfg, c, s, 0);
    ChunkByte(cfg, c2, LF);
    FeedAdvance(cfg, c2, s, 1);
    TrailerByte(cfg, c3);
    FeedAdvance(cfg, c3, s, 2);
    TrailerByte(cfg, c4);
    FeedAgain(cfg, c4, s, 3);
    FeedDone(cfg, c3.(state := MessageDone), s, 3);
  }

  /** The parser behind a chunked body. */
  function Unchunked(c: Core): Core {
    Completed(c.(contentLength := 0, flags := c.flags.(trailing := true), state := MessageDone))
  }

  lemma FeedLastChunk(cfg: Settings, c: Core, k: ChunkText)
    requires c.state.ChunkSizeStart? && k.Fits() && k.data == []
    ensures Feed(cfg, c, k.Text(), 0) ==
            Fed(Unchunked(c), |k.Text()|, [ChunkHeader(0), ChunkComplete, MessageComplete], c.upgrade)
  {
    hide Dispatch, Feed, Slips, SlipsAt, NewMessage, IsSize, IsExtension;
    FeedSize(cfg, c, k);
    FeedLastEnds(cfg, Sized(c, k));
    assert k.Text() == k.size + k.ext + (CRLF + CRLF);
    var es := [ChunkHeader(0), ChunkComplete, MessageComplete];
    assert [] + es == es;
    FeedBoth(cfg, c, k.size + k.ext, Sized(c, k), [], CRLF + CRLF, Feed(cfg, Sized(c, k), CRLF + CRLF, 0));
  }

  /**
   * The chunked coding of any list of non-empty chunks, however the sizes are written, read from the first of them on:
   * the pieces of body delivered are the chunks in order, the message is complete exactly once, at the last byte, and
   * every byte is accounted for.
   */
  lemma {:induction false} FeedChunked(cfg: Settings, c: Core, chunks: seq<ChunkText>, last: ChunkText)
    requires c.state.ChunkSizeStart? && WellCoded(chunks, last)
    ensures var f, bodies := Feed(cfg, c, Coded(chunks, last), 0), Datas(chunks);
            && f == Fed(Unchunked(c), |Coded(chunks, last)|, AllChunkEvents(bodies), c.upgrade)
            && BodyBytes(f.events) == Concat(bodies) && Completions(f.events) == 1
    decreases chunks
  {
    hide Dispatch, Feed, Slips, SlipsAt, NewMessage, ChunkText.Fits, ChunkText.Text, ChunkEvents;
    if chunks == [] {
      FeedLastChunk(cfg, c, last);
    } else {
      var c1 := c.(contentLength := 0);
      FeedChunk(cfg, c, chunks[0]);
      FeedChunked(cfg, c1, chunks[1..], last);
      FeedBoth(cfg, c, chunks[0].Text(), c1, ChunkEvents(chunks[0].data), Coded(chunks[1..], last),
               Feed(cfg, c1, Coded(chunks[1..], last), 0));
      assert Datas(chunks)[1..] == Datas(chunks[1..]);
    }
    AllChunksBody(Datas(chunks));
  }

  // ---------------------------------------------------------------- the header counter

  /** The count for a body on its own: no name or value can be cut, and none needs to be allowed for. */
  function ChunkCount(all: seq<char>, n: nat): Count {
    Count(all, n, 0, false)
  }

  /** Backwards over one byte of a chunk's framing, none of which is dispatched twice. */
  lemma FrameBack(cfg: Settings, c: Core, p: nat, k: Count, o: Out)
    requires p < |k.all| && k.n + 1 + k.slack <= HTTP_MAX_HEADER_SIZE && !InRun(c.state) && ParsingHeader(c.state)
    requires o == Dispatch(cfg, c, k.all[p]) && o.act.Advance?
    requires CalmTop(cfg, o.core, p + 1, Counted(k.(n := k.n + 1), o))
    ensures CalmTop(cfg, c, p, k)
  {
    hide Dispatch, CalmTop, CalmMid;
    StepBack(cfg, c, p, k);
  }

  lemma SizeLineByte(cfg: Settings, c: Core, ch: char)
    requires InSizeLine(c.state) && ch != CR
    ensures var o := Dispatch(cfg, c, ch);
            o.act.Fail? || (o.act.Advance? && InSizeLine(o.core.state) && !o.rewind)
  {
  }

  /** Backwards over a size line, up to its line end. */
  lemma {:induction false} SizeBack(cfg: Settings, c: Core, p: nat, q: nat, k: Count)
    requires p <= q <= |k.all| && InSizeLine(c.state) && CR !in k.all[p..q]
    requires k.n + (q - p) + k.slack <= HTTP_MAX_HEADER_SIZE
    requires !Feed(cfg, c, k.all[p..q], 0).stopped
    requires CalmTop(cfg, Feed(cfg, c, k.all[p..q], 0).core, q, k.(n := k.n + (q - p)))
    ensures CalmTop(cfg, c, p, k)
    decreases q - p
  {
    hide Dispatch, Feed, Slips, SlipsAt, CalmTop, CalmMid;
    var line := k.all[p..q];
    if p == q {
      NothingLeft(cfg, c, line);
    } else {
      var ch, rest := k.all[p], k.all[p + 1..q];
      assert line[0] == ch && line == [ch] + rest && ch in line;
      SizeLineByte(cfg, c, ch);
      var o := Dispatch(cfg, c, ch);
      if o.act.Fail? {
        FeedFail(cfg, c, line, 0);
      } else {
        FeedAdvance(cfg, c, line, 0);
        FeedSuffix(cfg, o.core, [ch], rest, 0);
        SizeBack(cfg, o.core, p + 1, q, k.(n := k.n + 1));
        FrameBack(cfg, c, p, k, o);
      }
    }
  }

  /** Backwards over a CRLF behind a size, or behind the data. */
  lemma SizeEndBack(cfg: Settings, c: Core, p: nat, k: Count)
    requires (c.state.ChunkSize? || c.state.ChunkParameters?) && k.n + 2 + k.slack <= HTTP_MAX_HEADER_SIZE
    requires p + 2 <= |k.all| && k.all[p] == CR && k.all[p + 1] == LF
    requires CalmTop(cfg, Dispatch(cfg, c.(state := ChunkSizeAlmostDone), LF).core, p + 2, k.(n := 0))
    ensures CalmTop(cfg, c, p, k)
  {
    hide Dispatch, CalmTop, CalmMid;
    var c1 := c.(state := ChunkSizeAlmostDone);
    ChunkByte(cfg, c, CR);
    ChunkByte(cfg, c1, LF);
    FrameBack(cfg, c1, p + 1, k.(n := k.n + 1), Dispatch(cfg, c1, LF));
    FrameBack(cfg, c, p, k, Dispatch(cfg, c, CR));
  }

  lemma DataEndBack(cfg: Settings, c: Core, p: nat, k: Count)
    requires c.state.ChunkDataAlmostDone? && k.n == 0 && k.slack <= HTTP_MAX_HEADER_SIZE
    requires p + 2 <= |k.all| && k.all[p] == CR && k.all[p + 1] == LF
    requires CalmTop(cfg, c.(state := ChunkSizeStart), p + 2, k)
    ensures CalmTop(cfg, c, p, k)
  {
    hide Dispatch, CalmTop, CalmMid;
    var c1 := c.(state := ChunkDataDone);
    ChunkByte(cfg, c, CR);
    ChunkByte(cfg, c1, LF);
    StepBack(cfg, c1, p + 1, k);
    StepBack(cfg, c, p, k);
  }

  /** A size line fits the limit of the header counter. */
  predicate Short(t: ChunkText, slack: nat) {
    |t.size| + |t.ext| + 2 + slack <= HTTP_MAX_HEADER_SIZE
  }

  predicate AllShort(chunks: seq<ChunkText>, last: ChunkText, slack: nat) {
    Short(last, slack) && forall i :: 0 <= i < |chunks| ==> Short(chunks[i], slack)
  }

  lemma SizeShort(n: nat)
    requires n <= MAX_CHUNK
    ensures |HexOf(n)| <= 16
  {
    assert Pow16(8) == 0x1_0000_0000;
    assert Pow16(16) == 0x1_0000_0000_0000_0000 by {
      assert Pow16(12) == 65536 * Pow16(8);
      assert Pow16(16) == 65536 * Pow16(12);
    }
    HexOfLength(n, 16, Pow16(16));
  }

  lemma {:induction false} PlainShort(chunks: seq<seq<char>>)
    requires forall i :: 0 <= i < |chunks| ==> 0 < |chunks[i]| <= MAX_CHUNK
    ensures AllShort(Plains(chunks), LAST, 0)
  {
    hide HexOf;
    if chunks != [] {
      SizeShort(|chunks[0]|);
      PlainShort(chunks[1..]);
      assert Plains(chunks)[1..] == Plains(chunks[1..]);
    }
  }

  /** The parts of a chunk at p. */
  lemma ChunkAt(all: seq<char>, p: nat, t: ChunkText, rest: seq<char>)
    requires p <= |all| && all[p..] == t.Text() + rest
    ensures var a := p + |t.size + t.ext|; var b := a + 2 + |t.data|;
            && b + 2 <= |all| && all[p..a] == t.size + t.ext && all[a] == CR && all[a + 1] == LF
            && all[b] == CR && all[b + 1] == LF && all[b + 2..] == rest
  {
    var h, d := |t.size + t.ext|, |t.data|;
    var s := all[p..];
    assert s == t.size + t.ext + CRLF + t.data + CRLF + rest;
    assert s[..h] == t.size + t.ext && s[h] == CR && s[h + 1] == LF;
    assert s[h + 2 + d] == CR && s[h + 3 + d] == LF && s[h + 4 + d..] == rest;
    assert all[p..p + h] == s[..h] && all[p + (h + 4 + d)..] == s[h + 4 + d..];
  }

  /** Backwards over a size line with its line end. */
  lemma HeadBack(cfg: Settings, c: Core, p: nat, t: ChunkText, k: Count)
    requires c.state.ChunkSizeStart? && t.Fits() && Short(t, k.slack) && k.n == 0
    requires var a := p + |t.size + t.ext|;
             && a + 2 <= |k.all| && k.all[p..a] == t.size + t.ext && k.all[a] == CR && k.all[a + 1] == LF
             && CalmTop(cfg, Dispatch(cfg, Sized(c, t).(state := ChunkSizeAlmostDone), LF).core, a + 2, k)
    ensures CalmTop(cfg, c, p, k)
  {
    hide Dispatch, Feed, CalmTop, CalmMid, SizeFits, Hexadecimal;
    var a := p + |t.size + t.ext|;
    FeedSize(cfg, c, t);
    SizeEndBack(cfg, Sized(c, t), a, k.(n := a - p));
    NoCr(t);
    SizeBack(cfg, c, p, a, k);
  }

  lemma NoCr(t: ChunkText)
    requires t.Fits()
    ensures CR !in t.size + t.ext
  {
    hide SizeFits, Hexadecimal;
    assert !IsHex(CR);
    forall i | 0 <= i < |t.size|
      ensures t.size[i] != CR
    {
      assert IsHex(t.size[i]);
    }
  }

  /** A chunked coding never brings the header counter near its limit, however long it is, if no size line does. */
  lemma {:induction false} ChunkedCalm(cfg: Settings, c: Core, p: nat, chunks: seq<ChunkText>, last: ChunkText,
                                       k: Count)
    requires c.state.ChunkSizeStart? && p <= |k.all| && k.all[p..] == Coded(chunks, last) && k.n == 0
    requires WellCoded(chunks, last) && AllShort(chunks, last, k.slack)
    ensures CalmTop(cfg, c, p, k)
    decreases |chunks|
  {
    hide Dispatch, CalmTop, CalmMid, ChunkText.Text, ChunkText.Fits;
    if chunks == [] {
      LastChunkCalm(cfg, c, p, last, k);
    } else {
      var t := chunks[0];
      ChunkAt(k.all, p, t, Coded(chunks[1..], last));
      var a := p + |t.size + t.ext|;
      var b := a + 2 + |t.data|;
      ChunkedCalm(cfg, c.(contentLength := 0), b + 2, chunks[1..], last, k);
      DataEndBack(cfg, c.(contentLength := 0, state := ChunkDataAlmostDone), b, k);
      BlockBack(cfg, c.(state := ChunkData, contentLength := |t.data|), a + 2, b, k);
      ChunkByte(cfg, Sized(c, t).(state := ChunkSizeAlmostDone), LF);
      HeadBack(cfg, c, p, t, k);
    }
  }

  lemma LastChunkCalm(cfg: Settings, c: Core, p: nat, t: ChunkText, k: Count)
    requires c.state.ChunkSizeStart? && p <= |k.all| && k.all[p..] == t.Text() && k.n == 0
    requires t.Fits() && t.data == [] && Short(t, k.slack)
    ensures CalmTop(cfg, c, p, k)
  {
    hide Dispatch, CalmTop, CalmMid, Unhex, NewMessage, ChunkText.Fits;
    assert t.Text() + [] == t.Text();
    ChunkAt(k.all, p, t, []);
    assert t.size != [] by { SizeNotEmpty(t); }
    var a := p + |t.size + t.ext|;
    var c3 := c.(contentLength := 0, flags := c.flags.(trailing := true), state := HeaderFieldStart);
    EndCalm(cfg, c3.(state := HeadersAlmostDone), a + 3, k.(n := 1));
    TrailerByte(cfg, c3);
    FrameBack(cfg, c3, a + 2, k, Dispatch(cfg, c3, CR));
    ChunkByte(cfg, Sized(c, t).(state := ChunkSizeAlmostDone), LF);
    HeadBack(cfg, c, p, t, k);
  }

  lemma SizeNotEmpty(t: ChunkText)
    requires t.Fits()
    ensures t.size != []
  {
  }

  /** The last byte of the message, which is dispatched twice. */
  lemma EndCalm(cfg: Settings, c: Core, p: nat, k: Count)
    requires c.state.HeadersAlmostDone? && c.flags.trailing && p + 1 == |k.all| && k.all[p] == LF
    requires k.n + 1 + k.slack <= HTTP_MAX_HEADER_SIZE
    ensures CalmTop(cfg, c, p, k)
  {
    hide Dispatch;
    TrailerByte(cfg, c);
    var done := c.(state := MessageDone);
    var k' := k.(n := k.n + 1);
    DoneByte(cfg, done, LF);
    NewMessageStates(done);
    TopEnd(cfg, Completed(done), k');
    assert CalmMid(cfg, done, p, k');
    assert CalmMid(cfg, c, p, k');
  }

  /** A body of declared length never counts, however long it is. */
  lemma {:induction false} IdentityCalm(cfg: Settings, c: Core, p: nat, k: Count)
    requires c.state.BodyIdentity? && 0 < c.contentLength && p + c.contentLength == |k.all|
    requires k.n + k.slack <= HTTP_MAX_HEADER_SIZE
    ensures CalmTop(cfg, c, p, k)
    decreases c.contentLength
  {
    hide Dispatch, CalmTop, CalmMid, NewMessage;
    BodyByte(cfg, c, k.all[p]);
    if 1 < c.contentLength {
      IdentityCalm(cfg, c.(contentLength := c.contentLength - 1), p + 1, k);
      StepBack(cfg, c, p, k);
    } else {
      IdentityEndCalm(cfg, c, p, k);
    }
  }

  lemma IdentityEndCalm(cfg: Settings, c: Core, p: nat, k: Count)
    requires c.state.BodyIdentity? && c.contentLength == 1 && p + 1 == |k.all|
    requires k.n + k.slack <= HTTP_MAX_HEADER_SIZE
    ensures CalmTop(cfg, c, p, k)
  {
    hide Dispatch;
    BodyByte(cfg, c, k.all[p]);
    var done := c.(contentLength := 0, state := MessageDone);
    DoneByte(cfg, done, k.all[p]);
    NewMessageStates(done);
    TopEnd(cfg, Completed(done), k);
    assert CalmMid(cfg, done, p, k);
    assert CalmMid(cfg, c, p, k);
  }

  /** Nor does a body that lasts until the connection closes. */
  lemma {:induction false} UntilEofCalm(cfg: Settings, c: Core, p: nat, k: Count)
    requires c.state.BodyIdentityEof? && p <= |k.all| && k.n + k.slack <= HTTP_MAX_HEADER_SIZE
    ensures CalmTop(cfg, c, p, k)
    decreases |k.all| - p
  {
    hide Dispatch, CalmTop, CalmMid;
    if p < |k.all| {
      EofByte(cfg, c, k.all[p]);
      UntilEofCalm(cfg, c, p + 1, k);
      StepBack(cfg, c, p, k);
    } else {
      TopEnd(cfg, c, k);
    }
  }

  lemma NewMessageStates(c: Core)
    ensures !InRun(NewMessage(c))
  {
  }
}

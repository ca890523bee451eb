/**
 * The parser as its connection drives it: one call per segment received. What it delivers does not depend on how the
 * stream was cut.
 */
module HttpDelivery {
  import opened HttpParserTypes
  import opened HttpParserStep
  import opened HttpParserFeed
  import opened HttpParserCount
  import opened HttpParserInvariant
  import opened HttpParserExecute
  import opened HttpFraming

  /** Segments as a connection hands them over: none is empty, and none could wrap the byte counter. */
  predicate AreSegments(segments: seq<seq<char>>) {
    forall i :: 0 <= i < |segments| ==> segments[i] != [] && Countable(segments[i])
  }

  lemma {:induction false} ConcatAt(segments: seq<seq<char>>, i: nat)
    requires i < |segments|
    ensures Concat(segments[i..]) == segments[i] + Concat(segments[i + 1..])
  {
    assert segments[i..][1..] == segments[i + 1..];
  }

  /** Feeding the first of the remaining segments is the first part of feeding them all. */
  lemma FeedSegment(cfg: Settings, c: Core, segments: seq<seq<char>>, i: nat)
    requires i < |segments|
    ensures var fa := Feed(cfg, c, segments[i], 0);
            var all := Feed(cfg, c, Concat(segments[i..]), 0);
            all == if fa.stopped then fa
                   else var fb := Feed(cfg, fa.core, Concat(segments[i + 1..]), 0);
                        Fed(fb.core, |segments[i]| + fb.used, fa.events + fb.events, fb.stopped)
  {
    hide Feed;
    ConcatAt(segments, i);
    Segmentation(cfg, c, segments[i], Concat(segments[i + 1..]), 0);
  }

  /** How many of the segments begin before byte h. */
  function Starts(segments: seq<seq<char>>, h: int): nat {
    if segments == [] || h <= 0 then 0 else 1 + Starts(segments[1..], h - |segments[0]|)
  }

  /** From byte h on, no name or value can be cut. */
  ghost predicate Quiet(cfg: Settings, c: Core, stream: seq<char>, h: int) {
    forall q :: h <= q < |stream| && 0 <= q ==> QuietAt(cfg, c, stream, q)
  }

  predicate QuietAt(cfg: Settings, c: Core, stream: seq<char>, q: nat)
    requires q <= |stream|
  {
    var f := Feed(cfg, c, stream[..q], 0); f.stopped || !InRun(f.core.state)
  }

  lemma QuietBehind(cfg: Settings, c: Core, segment: seq<char>, rest: seq<char>, h: int)
    requires Quiet(cfg, c, segment + rest, h) && !Feed(cfg, c, segment, 0).stopped
    ensures Quiet(cfg, Feed(cfg, c, segment, 0).core, rest, h - |segment|)
    ensures h <= |segment| && rest != [] ==> !InRun(Feed(cfg, c, segment, 0).core.state)
  {
    hide Feed;
    var stream := segment + rest;
    var c1 := Feed(cfg, c, segment, 0).core;
    forall q | h - |segment| <= q < |rest| && 0 <= q
      ensures QuietAt(cfg, c1, rest, q)
    {
      assert stream[..|segment| + q] == segment + rest[..q];
      assert QuietAt(cfg, c, stream, |segment| + q);
      Segmentation(cfg, c, segment, rest[..q], 0);
    }
    if h <= |segment| && rest != [] {
      assert QuietAt(cfg, c, stream, |segment|);
      assert stream[..|segment|] == segment;
    }
  }

  /**
   * The header counter is within the count k, which stays within the limit on the rest of the stream, and allows for
   * the segments to come that begin before byte h, if names and values may be cut there.
   */
  ghost predicate Within(parser: HttpParser, k: Count, segments: seq<seq<char>>, h: int)
    reads parser
  {
    var stream := Concat(segments);
    && k.all == stream && CalmTop(parser.settings, parser.View(), 0, k) && parser.nread <= k.n
    && (k.cuts ==>
          Starts(segments, h) <= k.slack && (segments != [] ==> 1 <= k.slack) &&
          Quiet(parser.settings, parser.View(), stream, h))
  }

  /** The count for the segments after the first, which may have ended inside a name or value. */
  lemma NextCount(cfg: Settings, c: Core, nread: nat, segment: seq<char>, rest: seq<char>, k: Count) returns (j: Count)
    requires k.all == segment + rest && TopAt(cfg, c, nread, segment, |segment|, k)
    ensures j.all == rest && j.cuts == k.cuts && CalmTop(cfg, c, 0, j) && nread <= j.n && j.slack + 1 >= k.slack
    ensures !InRun(c.state) ==> j.slack == k.slack
  {
    hide Dispatch;
    var i := if InRun(c.state) && k.slack > 0 then k.(n := k.n + 1, slack := k.slack - 1) else k;
    j := i.(all := rest);
    assert InRun(c.state) ==> k.cuts;
    hide CalmTop, CalmMid;
    CalmerTop(cfg, c, |segment|, k, i);
    SuffixTop(cfg, c, segment, 0, j);
  }

  /**
   * For every cut of a stream that is read to its end, when its header bytes stay within the limit: the parser ends in
   * the state, and with the callbacks, of the stream fed as a whole. The limit is that on the bytes between two resets
   * of the counter, with one more for every segment that begins where names or values may be cut, before byte h.
   */
  method DeliverSegments(parser: HttpParser, segments: seq<seq<char>>, ghost k: Count, ghost h: nat)
    requires parser.Valid() && parser.errno.Ok? && AreSegments(segments)
    requires var goal := Feed(parser.settings, parser.View(), Concat(segments), 0);
             !goal.stopped && goal.core.errno.Ok?
    requires Within(parser, k, segments, h)
    modifies parser
    ensures parser.Valid()
    ensures var goal := Feed(parser.settings, old(parser.View()), Concat(segments), 0);
            parser.View() == goal.core && parser.log == old(parser.log) + goal.events
  {
    hide Feed, Slips, StateInv, Numbers, CalmTop, Quiet;
    ghost var goal := Feed(parser.settings, parser.View(), Concat(segments), 0);
    var i := 0;
    ghost var j, left: int := k, h;
    assert segments[0..] == segments;
    while i < |segments|
      invariant 0 <= i <= |segments| && parser.Valid() && parser.errno.Ok?
      invariant var rest := Feed(parser.settings, parser.View(), Concat(segments[i..]), 0);
                !rest.stopped && rest.core == goal.core && old(parser.log) + goal.events == parser.log + rest.events
      invariant Within(parser, j, segments[i..], left)
    {
      FeedSegment(parser.settings, parser.View(), segments, i);
      FeedKeepsOk(parser.settings, parser.View(), segments[i]);
      ConcatAt(segments, i);
      ghost var rest := Concat(segments[i + 1..]);
      if j.cuts {
        QuietBehind(parser.settings, parser.View(), segments[i], rest, left);
      }
      ghost var log0 := parser.log;
      ghost var fa := Feed(parser.settings, parser.View(), segments[i], 0);
      ghost var fb := Feed(parser.settings, fa.core, rest, 0);
      ghost var k';
      var n;
      n, k' := parser.Execute(segments[i], j);
      ghost var j' := NextCount(parser.settings, parser.View(), parser.nread, segments[i], rest, k');
      NextStarts(segments, i, left);
      assert log0 + (fa.events + fb.events) == log0 + fa.events + fb.events;
      j, left := j', left - |segments[i]|;
      i := i + 1;
    }
    assert segments[i..] == [];
    NothingLeft(parser.settings, parser.View(), []);
    assert parser.log + [] == parser.log;
  }

  lemma NextStarts(segments: seq<seq<char>>, i: nat, h: int)
    requires i < |segments| && segments[i] != [] && forall j :: i < j < |segments| ==> segments[j] != []
    ensures var next := h - |segments[i]|;
            && Starts(segments[i + 1..], next) == (if h <= 0 then 0 else Starts(segments[i..], h) - 1)
            && (0 < next && segments[i + 1..] != [] ==> 1 <= Starts(segments[i + 1..], next))
            && (segments[i + 1..] != [] ==> Concat(segments[i + 1..]) != [])
  {
    assert segments[i..][1..] == segments[i + 1..] && segments[i..][0] == segments[i];
  }

  /** A feed that is not left early records no error. */
  lemma {:induction false} FeedKeepsOkFrom(cfg: Settings, c: Core, data: seq<char>, p: nat)
    requires Inv(c) && c.errno.Ok? && p <= |data|
    ensures var f := Feed(cfg, c, data, p); !f.stopped ==> f.core.errno.Ok? && Inv(f.core)
    decreases |data| - p
  {
    hide Dispatch, StateInv, Numbers;
    if p < |data| {
      FeedByteKeeps(cfg, c, data[p]);
      var r := FeedByte(cfg, c, data[p]);
      if r.act.Advance? {
        FeedKeepsOkFrom(cfg, r.core, data, p + 1);
      }
    }
  }

  lemma FeedKeepsOk(cfg: Settings, c: Core, data: seq<char>)
    requires Inv(c) && c.errno.Ok?
    ensures var f := Feed(cfg, c, data, 0); !f.stopped ==> f.core.errno.Ok? && !Slips(cfg, c, data, 0)
  {
    hide Feed, Slips, StateInv, Numbers;
    FeedKeepsOkFrom(cfg, c, data, 0);
    if Slips(cfg, c, data, 0) {
      SlipsRejected(cfg, c, data, 0);
    }
  }

  /**
   * For every list of non-empty chunks, however their sizes are written and with any extensions that fit the limit, and
   * every cut of their coding into segments: the body delivered is the chunks, and the message is completed exactly
   * once.
   */
  method DeliverChunked(parser: HttpParser, segments: seq<seq<char>>, ghost chunks: seq<ChunkText>,
                        ghost last: ChunkText)
    requires parser.Valid() && parser.errno.Ok? && AreSegments(segments)
    requires parser.state.ChunkSizeStart? && !parser.upgrade
    requires WellCoded(chunks, last) && AllShort(chunks, last, 0)
    requires Concat(segments) == Coded(chunks, last)
    modifies parser
    ensures parser.errno.Ok? && old(parser.log) <= parser.log
    ensures BodyBytes(parser.log[|old(parser.log)|..]) == Concat(Datas(chunks))
    ensures Completions(parser.log[|old(parser.log)|..]) == 1
  {
    hide Feed, Slips, StateInv, Numbers, CalmTop;
    FeedChunked(parser.settings, parser.View(), chunks, last);
    ghost var log0 := parser.log;
    ghost var stream := Concat(segments);
    ghost var goal := Feed(parser.settings, parser.View(), stream, 0);
    assert stream[0..] == stream;
    ChunkedCalm(parser.settings, parser.View(), 0, chunks, last, ChunkCount(stream, 0));
    DeliverSegments(parser, segments, ChunkCount(stream, 0), 0);
    assert (log0 + goal.events)[|log0|..] == goal.events;
  }

  /** The same for a body of declared length: its bytes are called back in order, then the message is complete. */
  method DeliverIdentity(parser: HttpParser, segments: seq<seq<char>>)
    requires parser.Valid() && parser.errno.Ok? && AreSegments(segments)
    requires parser.state.BodyIdentity? && !parser.upgrade && |Concat(segments)| == parser.contentLength
    modifies parser
    ensures parser.errno.Ok? && parser.Valid()
    ensures parser.log == old(parser.log) + (DataEvents(Body, Concat(segments)) + [MessageComplete])
    ensures parser.View() == Completed(old(parser.View()).(contentLength := 0, state := MessageDone))
  {
    hide Feed, Slips, StateInv, Numbers, CalmTop, NewMessage, DataEvents;
    BodyLengthKnown(parser.View());
    FeedIdentity(parser.settings, parser.View(), Concat(segments));
    IdentityCalm(parser.settings, parser.View(), 0, ChunkCount(Concat(segments), parser.nread));
    DeliverSegments(parser, segments, ChunkCount(Concat(segments), parser.nread), 0);
  }

  /** And for a body that lasts until the connection closes, when that is reported by an empty segment. */
  method DeliverUntilEof(parser: HttpParser, segments: seq<seq<char>>)
    requires parser.Valid() && parser.errno.Ok? && AreSegments(segments) && parser.state.BodyIdentityEof?
    modifies parser
    ensures parser.errno.Ok? && parser.View() == old(parser.View())
    ensures parser.log == old(parser.log) + DataEvents(Body, Concat(segments)) + [MessageComplete]
  {
    hide Feed, Slips, StateInv, Numbers, CalmTop, NewMessage, DataEvents;
    ghost var stream := Concat(segments);
    FeedUntilEof(parser.settings, parser.View(), stream, 0);
    assert stream[0..] == stream;
    UntilEofCalm(parser.settings, parser.View(), 0, ChunkCount(stream, parser.nread));
    DeliverSegments(parser, segments, ChunkCount(stream, parser.nread), 0);
    ghost var k;
    var n;
    n, k := parser.Execute([], ChunkCount([], 0));
    assert n == 0;
  }
}

/**
 * The parser as a byte-at-a-time machine: no blocks, no marks, no byte counter. It is the reference that
 * HttpParser.Execute refines, and it does not depend on how the stream is cut into segments.
 */
module HttpParserFeed {
  import opened Basics
  import opened HttpChars
  import opened HttpParserTypes
  import opened HttpParserStep

  /** All dispatches of one byte. */
  datatype ByteResult = ByteResult(core: Core, act: Act, events: seq<Event>)

  function OutEvents(o: Out, ch: char): seq<Event> {
    (match o.data case Some(k) => [Data(k, ch)] case None => []) + o.notes
  }

  function FeedByte(cfg: Settings, c: Core, ch: char): (r: ByteResult)
    ensures !r.act.Again?
    decreases Rank(c.state)
  {
    var o := Dispatch(cfg, c, ch);
    if o.act.Again? then
      var r := FeedByte(cfg, o.core, ch);
      ByteResult(r.core, r.act, OutEvents(o, ch) + r.events)
    else ByteResult(o.core, o.act, OutEvents(o, ch))
  }

  /**
   * The result of feeding a segment: the parser, the number of bytes it accounts for, the trace, and whether it left
   * early.
   */
  datatype Fed = Fed(core: Core, used: nat, events: seq<Event>, stopped: bool)

  function After(events: seq<Event>, f: Fed): Fed {
    f.(events := events + f.events)
  }

  /** Feeds data[p..] byte by byte. */
  function Feed(cfg: Settings, c: Core, data: seq<char>, p: nat): (f: Fed)
    requires p <= |data|
    ensures p <= f.used <= |data|
    ensures !f.stopped ==> f.used == |data|
    decreases |data| - p
  {
    if p == |data| then Fed(c, p, [], false)
    else
      var r := FeedByte(cfg, c, data[p]);
      if r.act.Fail? then Fed(r.core, p, r.events, true)
      else if r.act.Exit? then Fed(r.core, p + 1, r.events, true)
      else After(r.events, Feed(cfg, r.core, data, p + 1))
  }

  /** Whether a header value in c may not hold the byte. */
  predicate Forbidden(c: Core, ch: char) {
    !c.lenient && !IsHeaderChar(ch)
  }

  /** A general header value, whose bytes a call on blocks looks at one by one only where it finds the first of them. */
  predicate InGeneral(c: Core) {
    c.state.HeaderValue? && c.header.General?
  }

  /** At the byte at p a general header value goes on, in the same segment, with a byte it may not hold. */
  predicate SlipsAt(c: Core, data: seq<char>, p: nat)
    requires p < |data|
  {
    InGeneral(c) && data[p] != CR && data[p] != LF && p + 1 < |data| && Forbidden(c, data[p + 1])
  }

  /** Whether feeding data[p..] comes to such a byte. */
  predicate Slips(cfg: Settings, c: Core, data: seq<char>, p: nat)
    requires p <= |data|
    decreases |data| - p
  {
    p < |data| &&
    var r := FeedByte(cfg, c, data[p]);
    r.act.Advance? && (SlipsAt(c, data, p) || Slips(cfg, r.core, data, p + 1))
  }

  lemma AfterAfter(a: seq<Event>, b: seq<Event>, f: Fed)
    ensures After(a, After(b, f)) == After(a + b, f)
  {
    assert a + (b + f.events) == a + b + f.events;
  }

  lemma AfterNothing(f: Fed)
    ensures After([], f) == f
  {
    assert [] + f.events == f.events;
  }

  lemma DataFirst(kind: Piece, data: seq<char>, p: nat)
    requires p < |data|
    ensures [Data(kind, data[p])] + DataEvents(kind, data[p + 1..]) == DataEvents(kind, data[p..])
  {
  }

  /** A header value is come to with its first byte done, and keeps only the LF that ends it. */
  lemma AgainElsewhere(cfg: Settings, c: Core, ch: char)
    requires Dispatch(cfg, c, ch).act.Again?
    ensures !Dispatch(cfg, c, ch).core.state.HeaderValue?
    ensures c.state.HeaderValue? ==> ch == LF
  {
  }

  /** A dispatch that keeps the byte leaves the outcome of the whole feed unchanged. */
  lemma FeedAgain(cfg: Settings, c: Core, data: seq<char>, p: nat)
    requires p < |data|
    requires Dispatch(cfg, c, data[p]).act == Again
    ensures var o := Dispatch(cfg, c, data[p]);
            Feed(cfg, c, data, p) == After(OutEvents(o, data[p]), Feed(cfg, o.core, data, p)) &&
            Slips(cfg, c, data, p) == Slips(cfg, o.core, data, p)
  {
    AgainElsewhere(cfg, c, data[p]);
    hide Dispatch;
    var o := Dispatch(cfg, c, data[p]);
    var r := FeedByte(cfg, o.core, data[p]);
    assert FeedByte(cfg, c, data[p]) == ByteResult(r.core, r.act, OutEvents(o, data[p]) + r.events);
    if r.act.Advance? {
      AfterAfter(OutEvents(o, data[p]), r.events, Feed(cfg, r.core, data, p + 1));
    }
  }

  lemma FeedAdvance(cfg: Settings, c: Core, data: seq<char>, p: nat)
    requires p < |data|
    requires Dispatch(cfg, c, data[p]).act == Advance
    ensures var o := Dispatch(cfg, c, data[p]);
            Feed(cfg, c, data, p) == After(OutEvents(o, data[p]), Feed(cfg, o.core, data, p + 1)) &&
            Slips(cfg, c, data, p) == (SlipsAt(c, data, p) || Slips(cfg, o.core, data, p + 1))
  {
    hide Dispatch;
    var o := Dispatch(cfg, c, data[p]);
    assert FeedByte(cfg, c, data[p]) == ByteResult(o.core, o.act, OutEvents(o, data[p]));
  }

  lemma FeedExit(cfg: Settings, c: Core, data: seq<char>, p: nat)
    requires p < |data|
    requires Dispatch(cfg, c, data[p]).act.Exit?
    ensures var o := Dispatch(cfg, c, data[p]);
            Feed(cfg, c, data, p) == Fed(o.core, p + 1, OutEvents(o, data[p]), true) && !Slips(cfg, c, data, p)
  {
    hide Dispatch;
  }

  lemma FeedFail(cfg: Settings, c: Core, data: seq<char>, p: nat)
    requires p < |data| && Dispatch(cfg, c, data[p]).act.Fail?
    ensures Feed(cfg, c, data, p).stopped && Feed(cfg, c, data, p).core == Dispatch(cfg, c, data[p]).core
    ensures Feed(cfg, c, data, p).used == p
  {
    hide Dispatch;
  }

  // ---------------------------------------------------------------- segmentation

  /** Feeding depends on the remaining bytes only. */
  lemma {:induction false} FeedSuffix(cfg: Settings, c: Core, a: seq<char>, b: seq<char>, p: nat)
    requires p <= |b|
    ensures var f := Feed(cfg, c, b, p);
            Feed(cfg, c, a + b, |a| + p) == f.(used := |a| + f.used)
    decreases |b| - p
  {
    if p < |b| {
      assert (a + b)[|a| + p] == b[p];
      var r := FeedByte(cfg, c, b[p]);
      if r.act.Advance? {
        FeedSuffix(cfg, r.core, a, b, p + 1);
      }
    }
  }

  /**
   * Feeding a and then b is feeding a + b, for every cut: same parser, same callbacks in the same order, same
   * position; and when the parser leaves within a, the rest is not looked at.
   */
  lemma {:induction false} Segmentation(cfg: Settings, c: Core, a: seq<char>, b: seq<char>, p: nat)
    requires p <= |a|
    ensures var fa := Feed(cfg, c, a, p);
            Feed(cfg, c, a + b, p) ==
              if fa.stopped then fa
              else var fb := Feed(cfg, fa.core, b, 0); Fed(fb.core, |a| + fb.used, fa.events + fb.events, fb.stopped)
    decreases |a| - p
  {
    if p == |a| {
      FeedSuffix(cfg, c, a, b, 0);
      var fb := Feed(cfg, c, b, 0);
      assert [] + fb.events == fb.events;
    } else {
      assert (a + b)[p] == a[p];
      var r := FeedByte(cfg, c, a[p]);
      if r.act.Advance? {
        Segmentation(cfg, r.core, a, b, p + 1);
        var fa := Feed(cfg, r.core, a, p + 1);
        if !fa.stopped {
          var fb := Feed(cfg, fa.core, b, 0);
          assert r.events + (fa.events + fb.events) == r.events + fa.events + fb.events;
        }
      }
    }
  }

  /** Feeding a and then b, when feeding a uses it up. */
  lemma FeedBoth(cfg: Settings, c: Core, a: seq<char>, c1: Core, ea: seq<Event>, b: seq<char>, fb: Fed)
    requires Feed(cfg, c, a, 0) == Fed(c1, |a|, ea, false)
    requires Feed(cfg, c1, b, 0) == fb
    ensures Feed(cfg, c, a + b, 0) == Fed(fb.core, |a| + fb.used, ea + fb.events, fb.stopped)
  {
    hide Feed, Slips;
    Segmentation(cfg, c, a, b, 0);
  }

  // ---------------------------------------------------------------- blocks

  lemma BodyByte(cfg: Settings, c: Core, ch: char)
    requires c.state.BodyIdentity? || c.state.ChunkData?
    requires 0 < c.contentLength
    ensures var n := c.contentLength - 1;
            Dispatch(cfg, c, ch) ==
              if 0 < n then Keep(c.(contentLength := n), c.state, Body)
              else if c.state.ChunkData? then Keep(c.(contentLength := 0), ChunkDataAlmostDone, Body)
              else Out(c.(contentLength := 0, state := MessageDone), Again, Some(Body), Some(Body), [], false)
  {
  }

  /** Body bytes of a block that does not exhaust the declared length (identity body) or the chunk. */
  lemma {:induction false} FeedBodyBlock(cfg: Settings, c: Core, data: seq<char>, p: nat, k: nat)
    requires c.state.BodyIdentity? || c.state.ChunkData?
    requires p + k <= |data| && k < c.contentLength
    ensures Feed(cfg, c, data, p) ==
            After(DataEvents(Body, data[p..p + k]), Feed(cfg, c.(contentLength := c.contentLength - k), data, p + k))
    ensures Slips(cfg, c, data, p) == Slips(cfg, c.(contentLength := c.contentLength - k), data, p + k)
    decreases k
  {
    hide Dispatch, Feed, Slips;
    if k == 0 {
      assert DataEvents(Body, data[p..p]) == [];
      AfterNothing(Feed(cfg, c, data, p));
    } else {
      var c' := c.(contentLength := c.contentLength - 1);
      BodyByte(cfg, c, data[p]);
      FeedAdvance(cfg, c, data, p);
      FeedBodyBlock(cfg, c', data, p + 1, k - 1);
      var rest := Feed(cfg, c.(contentLength := c.contentLength - k), data, p + k);
      AfterAfter([Data(Body, data[p])], DataEvents(Body, data[p + 1..p + k]), rest);
      assert [Data(Body, data[p])] + DataEvents(Body, data[p + 1..p + k]) == DataEvents(Body, data[p..p + k]);
    }
  }

  /** The block that exhausts the declared length; the last byte is dispatched once more, in MessageDone. */
  lemma FeedLastBlock(cfg: Settings, c: Core, data: seq<char>, p: nat)
    requires c.state.BodyIdentity? && 0 < c.contentLength && p + c.contentLength <= |data|
    ensures var q := p + c.contentLength;
            Feed(cfg, c, data, p) ==
            After(DataEvents(Body, data[p..q]), Feed(cfg, c.(contentLength := 0, state := MessageDone), data, q - 1)) &&
            Slips(cfg, c, data, p) == Slips(cfg, c.(contentLength := 0, state := MessageDone), data, q - 1)
  {
    hide Dispatch, Feed, Slips;
    var n := c.contentLength;
    FeedBodyBlock(cfg, c, data, p, n - 1);
    var last := c.(contentLength := 1);
    BodyByte(cfg, last, data[p + n - 1]);
    var rest := Feed(cfg, c.(contentLength := 0, state := MessageDone), data, p + n - 1);
    assert Feed(cfg, last, data, p + n - 1) == After([Data(Body, data[p + n - 1])], rest) &&
           Slips(cfg, last, data, p + n - 1) == Slips(cfg, c.(contentLength := 0, state := MessageDone), data,
                                                      p + n - 1) by {
      FeedAgain(cfg, last, data, p + n - 1);
    }
    AfterAfter(DataEvents(Body, data[p..p + n - 1]), [Data(Body, data[p + n - 1])], rest);
    assert DataEvents(Body, data[p..p + n - 1]) + [Data(Body, data[p + n - 1])] == DataEvents(Body, data[p..p + n]);
  }

  /** The block that exhausts a chunk. */
  lemma FeedLastOfChunk(cfg: Settings, c: Core, data: seq<char>, p: nat)
    requires c.state.ChunkData? && 0 < c.contentLength && p + c.contentLength <= |data|
    ensures var q := p + c.contentLength;
            Feed(cfg, c, data, p) ==
            After(DataEvents(Body, data[p..q]),
                  Feed(cfg, c.(contentLength := 0, state := ChunkDataAlmostDone), data, q)) &&
            Slips(cfg, c, data, p) == Slips(cfg, c.(contentLength := 0, state := ChunkDataAlmostDone), data, q)
  {
    hide Dispatch, Feed, Slips;
    var n := c.contentLength;
    FeedBodyBlock(cfg, c, data, p, n - 1);
    var last := c.(contentLength := 1);
    BodyByte(cfg, last, data[p + n - 1]);
    FeedAdvance(cfg, last, data, p + n - 1);
    var rest := Feed(cfg, c.(contentLength := 0, state := ChunkDataAlmostDone), data, p + n);
    AfterAfter(DataEvents(Body, data[p..p + n - 1]), [Data(Body, data[p + n - 1])], rest);
    assert DataEvents(Body, data[p..p + n - 1]) + [Data(Body, data[p + n - 1])] == DataEvents(Body, data[p..p + n]);
  }

  lemma NothingLeft(cfg: Settings, c: Core, data: seq<char>)
    ensures Feed(cfg, c, data, |data|) == Fed(c, |data|, [], false) && !Slips(cfg, c, data, |data|)
  {
    hide Dispatch;
  }

  lemma EofByte(cfg: Settings, c: Core, ch: char)
    requires c.state.BodyIdentityEof?
    ensures Dispatch(cfg, c, ch) == Keep(c, BodyIdentityEof, Body)
  {
  }

  lemma GeneralByte(cfg: Settings, c: Core, ch: char)
    requires InGeneral(c) && ch != CR && ch != LF
    ensures Dispatch(cfg, c, ch) == if Forbidden(c, ch) then Bad(c, InvalidHeaderToken) else Keep(c, HeaderValue, Value)
  {
  }

  lemma {:induction false} FeedUntilEof(cfg: Settings, c: Core, data: seq<char>, p: nat)
    requires c.state.BodyIdentityEof? && p <= |data|
    ensures Feed(cfg, c, data, p) == Fed(c, |data|, DataEvents(Body, data[p..]), false) && !Slips(cfg, c, data, p)
    decreases |data| - p
  {
    hide Dispatch, Feed, Slips;
    if p == |data| {
      NothingLeft(cfg, c, data);
    } else {
      EofByte(cfg, c, data[p]);
      FeedAdvance(cfg, c, data, p);
      FeedUntilEof(cfg, c, data, p + 1);
      assert [Data(Body, data[p])] + DataEvents(Body, data[p + 1..]) == DataEvents(Body, data[p..]);
    }
  }

  /** The bytes of a general header value may all be in it. */
  predicate Allowed(c: Core, data: seq<char>, p: nat, q: nat)
    requires p <= q <= |data|
  {
    forall i :: p <= i < q ==> !Forbidden(c, data[i])
  }

  predicate NoLineEnd(data: seq<char>, p: nat, q: nat)
    requires p <= q <= |data|
  {
    forall i :: p <= i < q ==> data[i] != CR && data[i] != LF
  }

  lemma GeneralHead(c: Core, data: seq<char>, p: nat, q: nat)
    requires InGeneral(c) && p < q <= |data| && NoLineEnd(data, p, q) && Allowed(c, data, p, q)
    requires q == |data| || data[q] == CR || data[q] == LF
    ensures data[p] != CR && data[p] != LF && !Forbidden(c, data[p]) && !SlipsAt(c, data, p)
    ensures NoLineEnd(data, p + 1, q) && Allowed(c, data, p + 1, q)
  {
  }

  /** A run of a general header value up to its end q, when all its bytes may be in it, only hands them over. */
  lemma {:induction false} FeedGeneralRun(cfg: Settings, c: Core, data: seq<char>, p: nat, q: nat)
    requires InGeneral(c) && p <= q <= |data| && NoLineEnd(data, p, q) && Allowed(c, data, p, q)
    requires q == |data| || data[q] == CR || data[q] == LF
    ensures Feed(cfg, c, data, p) == After(DataEvents(Value, data[p..q]), Feed(cfg, c, data, q))
    ensures Slips(cfg, c, data, p) == Slips(cfg, c, data, q)
    decreases q - p
  {
    hide Dispatch, Feed, Slips, NoLineEnd, Allowed;
    if p == q {
      assert DataEvents(Value, data[p..q]) == [];
      AfterNothing(Feed(cfg, c, data, p));
    } else {
      GeneralHead(c, data, p, q);
      GeneralByte(cfg, c, data[p]);
      FeedAdvance(cfg, c, data, p);
      FeedGeneralRun(cfg, c, data, p + 1, q);
      AfterAfter([Data(Value, data[p])], DataEvents(Value, data[p + 1..q]), Feed(cfg, c, data, q));
      assert [Data(Value, data[p])] + DataEvents(Value, data[p + 1..q]) == DataEvents(Value, data[p..q]);
    }
  }

  /** A run whose first byte may be in it, but not all: the feed rejects one within the run. */
  lemma {:induction false} RunSlips(cfg: Settings, c: Core, data: seq<char>, p: nat, q: nat)
    requires InGeneral(c) && p < q <= |data| && NoLineEnd(data, p, q) && !Allowed(c, data, p, q) &&
             !Forbidden(c, data[p])
    ensures Slips(cfg, c, data, p) && Feed(cfg, c, data, p).used < q
    decreases q - p
  {
    hide Dispatch;
    GeneralByte(cfg, c, data[p]);
    FeedAdvance(cfg, c, data, p);
    if Forbidden(c, data[p + 1]) {
      GeneralByte(cfg, c, data[p + 1]);
    } else {
      RunSlips(cfg, c, data, p + 1, q);
    }
  }

  /** A feed slips only where it rejects a byte of a header value. */
  lemma {:induction false} SlipsRejected(cfg: Settings, c: Core, data: seq<char>, p: nat)
    requires p <= |data| && Slips(cfg, c, data, p)
    ensures var f := Feed(cfg, c, data, p);
            f.stopped && p < f.used < |data| && f.core.errno.InvalidHeaderToken? && f.core.state.HeaderValue? &&
              Forbidden(f.core, data[f.used])
    decreases |data| - p
  {
    hide Dispatch;
    var r := FeedByte(cfg, c, data[p]);
    if SlipsAt(c, data, p) {
      if Forbidden(c, data[p]) {
        GeneralByte(cfg, c, data[p]);
        assert false;
      }
      GeneralByte(cfg, c, data[p]);
      FeedAdvance(cfg, c, data, p);
      GeneralByte(cfg, c, data[p + 1]);
    } else {
      SlipsRejected(cfg, r.core, data, p + 1);
    }
  }

  /** A segment that does slip: the rest of a header value, and a control character behind its first byte. */
  lemma SlipsExample(cfg: Settings, c: Core)
    requires InGeneral(c) && !c.lenient
    ensures var data := ['a', 1 as char, CR]; Slips(cfg, c, data, 0) && Feed(cfg, c, data, 0).used == 1
  {
    hide Dispatch;
    var data := ['a', 1 as char, CR];
    GeneralByte(cfg, c, data[0]);
    GeneralByte(cfg, c, data[1]);
    FeedAdvance(cfg, c, data, 0);
  }
}

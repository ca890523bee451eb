/**
 * The header counter of the parser, byte by byte: when it stays within its limit on a whole stream, however that is
 * cut.
 */
module HttpParserCount {
  import opened HttpChars
  import opened HttpParserTypes
  import opened HttpParserStep
  import opened HttpParserFeed

  /**
   * A count of header bytes to go on from: of the stream all, with n bytes counted since the last reset, and a number
   * of segment ends to allow for. Only a segment that ends inside a header name or value is counted one byte too many;
   * when cuts is false there is to be no such name or value at all.
   */
  datatype Count = Count(all: seq<char>, n: nat, slack: nat, cuts: bool)

  predicate InRun(s: State) {
    s.HeaderField? || s.HeaderValue?
  }

  /** Before the byte at p: the count stays within the limit from here on. */
  predicate CalmTop(cfg: Settings, c: Core, p: nat, k: Count)
    requires p <= |k.all|
    decreases |k.all| - p, 1, 0
  {
    && (!k.cuts ==> !InRun(c.state))
    && (p < |k.all| ==>
          var n := if ParsingHeader(c.state) then k.n + 1 else k.n;
          n + k.slack <= HTTP_MAX_HEADER_SIZE && CalmMid(cfg, c, p, k.(n := n)))
  }

  /** While the byte at p, which has been counted, is being dispatched. */
  predicate CalmMid(cfg: Settings, c: Core, p: nat, k: Count)
    requires p < |k.all|
    decreases |k.all| - p, 0, Rank(c.state)
  {
    && (!k.cuts ==> !InRun(c.state))
    && k.n + k.slack <= HTTP_MAX_HEADER_SIZE
    && var o := Dispatch(cfg, c, k.all[p]);
       var k' := if o.rewind then k.(n := 0) else k;
       match o.act
       case Again => CalmMid(cfg, o.core, p, k')
       case Advance => CalmTop(cfg, o.core, p + 1, k')
       case _ => true
  }

  /** The count after a dispatch. */
  function Counted(k: Count, o: Out): Count {
    if o.rewind then k.(n := 0) else k
  }

  lemma MidStep(cfg: Settings, c: Core, p: nat, k: Count)
    requires p < |k.all| && CalmMid(cfg, c, p, k)
    ensures !k.cuts ==> !InRun(c.state)
    ensures k.n + k.slack <= HTTP_MAX_HEADER_SIZE
    ensures var o := Dispatch(cfg, c, k.all[p]);
            (o.act.Again? ==> CalmMid(cfg, o.core, p, Counted(k, o))) &&
              (o.act.Advance? ==> CalmTop(cfg, o.core, p + 1, Counted(k, o)))
  {
    hide Dispatch;
  }

  lemma TopStep(cfg: Settings, c: Core, p: nat, k: Count)
    requires p < |k.all| && CalmTop(cfg, c, p, k)
    ensures var n := if ParsingHeader(c.state) then k.n + 1 else k.n;
            n + k.slack <= HTTP_MAX_HEADER_SIZE && CalmMid(cfg, c, p, k.(n := n))
  {
    hide Dispatch;
  }

  /** Backwards over one byte. */
  lemma StepBack(cfg: Settings, c: Core, p: nat, k: Count)
    requires p < |k.all| && (!k.cuts ==> !InRun(c.state))
    requires (if ParsingHeader(c.state) then k.n + 1 else k.n) + k.slack <= HTTP_MAX_HEADER_SIZE
    requires var o := Dispatch(cfg, c, k.all[p]); var n := if ParsingHeader(c.state) then k.n + 1 else k.n;
             o.act.Advance? && CalmTop(cfg, o.core, p + 1, Counted(k.(n := n), o))
    ensures CalmTop(cfg, c, p, k)
  {
    hide Dispatch;
  }

  lemma TopEnd(cfg: Settings, c: Core, k: Count)
    ensures CalmTop(cfg, c, |k.all|, k) <==> (!k.cuts ==> !InRun(c.state))
  {
    hide Dispatch;
  }

  /** A count with no more bytes, and no more ends to allow for. */
  predicate NoMore(k: Count, j: Count) {
    j.all == k.all && j.cuts == k.cuts && j.n + j.slack <= k.n + k.slack && j.slack <= k.slack
  }

  lemma {:induction false} CalmerTop(cfg: Settings, c: Core, p: nat, k: Count, j: Count)
    requires NoMore(k, j) && p <= |k.all| && CalmTop(cfg, c, p, k)
    ensures CalmTop(cfg, c, p, j)
    decreases |k.all| - p, 1, 0
  {
    hide Dispatch;
    if p < |k.all| {
      var d := if ParsingHeader(c.state) then 1 else 0;
      CalmerMid(cfg, c, p, k.(n := k.n + d), j.(n := j.n + d));
    }
  }

  lemma {:induction false} CalmerMid(cfg: Settings, c: Core, p: nat, k: Count, j: Count)
    requires NoMore(k, j) && p < |k.all| && CalmMid(cfg, c, p, k)
    ensures CalmMid(cfg, c, p, j)
    decreases |k.all| - p, 0, Rank(c.state)
  {
    hide Dispatch;
    var o := Dispatch(cfg, c, k.all[p]);
    if o.act.Again? {
      CalmerMid(cfg, o.core, p, Counted(k, o), Counted(j, o));
    } else if o.act.Advance? {
      CalmerTop(cfg, o.core, p + 1, Counted(k, o), Counted(j, o));
    }
  }

  /** The count depends on the remaining bytes only. */
  lemma {:induction false} SuffixTop(cfg: Settings, c: Core, a: seq<char>, p: nat, k: Count)
    requires p <= |k.all| && CalmTop(cfg, c, |a| + p, k.(all := a + k.all))
    ensures CalmTop(cfg, c, p, k)
    decreases |k.all| - p, 1, 0
  {
    hide Dispatch;
    if p < |k.all| {
      var d := if ParsingHeader(c.state) then 1 else 0;
      SuffixMid(cfg, c, a, p, k.(n := k.n + d));
    }
  }

  lemma {:induction false} SuffixMid(cfg: Settings, c: Core, a: seq<char>, p: nat, k: Count)
    requires p < |k.all| && CalmMid(cfg, c, |a| + p, k.(all := a + k.all))
    ensures CalmMid(cfg, c, p, k)
    decreases |k.all| - p, 0, Rank(c.state)
  {
    hide Dispatch;
    assert (a + k.all)[|a| + p] == k.all[p];
    var o := Dispatch(cfg, c, k.all[p]);
    var k' := Counted(k, o);
    assert Counted(k.(all := a + k.all), o) == k'.(all := a + k'.all);
    if o.act.Again? {
      SuffixMid(cfg, o.core, a, p, k');
    } else if o.act.Advance? {
      SuffixTop(cfg, o.core, a, p + 1, k');
    }
  }

  /** A stream that is shorter than the limit, with all its ends, stays within it. */
  lemma {:induction false} ShortTop(cfg: Settings, c: Core, p: nat, k: Count)
    requires p <= |k.all| && k.cuts && k.n + (|k.all| - p) + k.slack <= HTTP_MAX_HEADER_SIZE
    ensures CalmTop(cfg, c, p, k)
    decreases |k.all| - p, 1, 0
  {
    hide Dispatch;
    if p < |k.all| {
      var d := if ParsingHeader(c.state) then 1 else 0;
      ShortMid(cfg, c, p, k.(n := k.n + d));
    }
  }

  lemma {:induction false} ShortMid(cfg: Settings, c: Core, p: nat, k: Count)
    requires p < |k.all| && k.cuts && k.n + (|k.all| - p - 1) + k.slack <= HTTP_MAX_HEADER_SIZE
    ensures CalmMid(cfg, c, p, k)
    decreases |k.all| - p, 0, Rank(c.state)
  {
    hide Dispatch;
    var o := Dispatch(cfg, c, k.all[p]);
    if o.act.Again? {
      ShortMid(cfg, o.core, p, Counted(k, o));
    } else if o.act.Advance? {
      ShortTop(cfg, o.core, p + 1, Counted(k, o));
    }
  }

  /** Whether the dispatches of a byte reset the counter. */
  predicate ByteRewinds(cfg: Settings, c: Core, ch: char)
    decreases Rank(c.state)
  {
    var o := Dispatch(cfg, c, ch); o.rewind || (o.act.Again? && ByteRewinds(cfg, o.core, ch))
  }

  /** Backwards over all the dispatches of a byte. */
  lemma {:induction false} ByteBack(cfg: Settings, c: Core, p: nat, k: Count)
    requires p < |k.all| && k.cuts && k.n + k.slack <= HTTP_MAX_HEADER_SIZE
    requires var r := FeedByte(cfg, c, k.all[p]);
             r.act.Advance? &&
             CalmTop(cfg, r.core, p + 1, k.(n := if ByteRewinds(cfg, c, k.all[p]) then 0 else k.n))
    ensures CalmMid(cfg, c, p, k)
    decreases Rank(c.state)
  {
    hide Dispatch, CalmTop;
    var o := Dispatch(cfg, c, k.all[p]);
    if o.act.Again? {
      ByteBack(cfg, o.core, p, Counted(k, o));
    }
  }

  /** Up to q the stream is shorter than the limit, and what comes then stays within it. */
  lemma {:induction false} ShortUpTo(cfg: Settings, c: Core, p: nat, q: nat, k: Count)
    requires p <= q <= |k.all| && k.cuts && k.n + (q - p) + k.slack <= HTTP_MAX_HEADER_SIZE
    requires var f := Feed(cfg, c, k.all[p..q], 0);
             !f.stopped && CalmTop(cfg, f.core, q, k.(n := k.n + (q - p)))
    ensures CalmTop(cfg, c, p, k)
    decreases q - p
  {
    hide Dispatch, CalmTop, CalmMid;
    var data := k.all[p..q];
    if p < q {
      var ch, rest := k.all[p], k.all[p + 1..q];
      assert data[0] == ch && data == [ch] + rest;
      var r := FeedByte(cfg, c, ch);
      FeedSuffix(cfg, r.core, [ch], rest, 0);
      ShortUpTo(cfg, r.core, p + 1, q, k.(n := k.n + 1));
      var n := if ParsingHeader(c.state) then k.n + 1 else k.n;
      CalmerTop(cfg, r.core, p + 1, k.(n := k.n + 1), k.(n := if ByteRewinds(cfg, c, ch) then 0 else n));
      ByteBack(cfg, c, p, k.(n := n));
      TopBack(cfg, c, p, k);
    }
  }

  lemma TopBack(cfg: Settings, c: Core, p: nat, k: Count)
    requires p < |k.all| && k.cuts
    requires var n := if ParsingHeader(c.state) then k.n + 1 else k.n;
             n + k.slack <= HTTP_MAX_HEADER_SIZE && CalmMid(cfg, c, p, k.(n := n))
    ensures CalmTop(cfg, c, p, k)
  {
    hide Dispatch, CalmMid;
  }

  /** What stays within the limit without any cuts is never, behind a byte, inside a name or value. */
  lemma {:induction false} ByteOn(cfg: Settings, c: Core, p: nat, k: Count) returns (j: Count)
    requires p < |k.all| && CalmMid(cfg, c, p, k)
    ensures j.all == k.all && j.cuts == k.cuts
    ensures var r := FeedByte(cfg, c, k.all[p]); r.act.Advance? ==> CalmTop(cfg, r.core, p + 1, j)
    decreases Rank(c.state)
  {
    hide Dispatch, CalmTop, CalmMid;
    MidStep(cfg, c, p, k);
    var o := Dispatch(cfg, c, k.all[p]);
    j := Counted(k, o);
    if o.act.Again? {
      j := ByteOn(cfg, o.core, p, j);
    }
  }

  lemma {:induction false} CalmQuiet(cfg: Settings, c: Core, p: nat, q: nat, k: Count)
    requires p <= q <= |k.all| && !k.cuts && CalmTop(cfg, c, p, k)
    ensures var f := Feed(cfg, c, k.all[p..q], 0); f.stopped || !InRun(f.core.state)
    decreases q - p
  {
    hide Dispatch, CalmMid;
    if p < q {
      var ch, rest := k.all[p], k.all[p + 1..q];
      assert k.all[p..q][0] == ch && k.all[p..q] == [ch] + rest;
      TopStep(cfg, c, p, k);
      var r := FeedByte(cfg, c, ch);
      var j := ByteOn(cfg, c, p, k.(n := if ParsingHeader(c.state) then k.n + 1 else k.n));
      if r.act.Advance? {
        FeedSuffix(cfg, r.core, [ch], rest, 0);
        CalmQuiet(cfg, r.core, p + 1, q, j);
      }
    }
  }

  // ---------------------------------------------------------------- blocks

  /** A block of body bytes counts nothing. */
  lemma {:induction false} BlockCalm(cfg: Settings, c: Core, p: nat, q: nat, k: Count)
    requires c.state.BodyIdentity? || c.state.ChunkData?
    requires p < q <= |k.all| && q - p < c.contentLength && CalmMid(cfg, c, p, k)
    ensures CalmTop(cfg, c.(contentLength := c.contentLength - (q - p)), q, k)
    decreases q - p
  {
    hide Dispatch, CalmTop, CalmMid;
    BodyByte(cfg, c, k.all[p]);
    MidStep(cfg, c, p, k);
    var c' := c.(contentLength := c.contentLength - 1);
    if p + 1 < q {
      TopStep(cfg, c', p + 1, k);
      BlockCalm(cfg, c', p + 1, q, k);
    }
  }

  /** Up to the last byte of a block, which is dispatched in the state the rest of the block has left. */
  lemma LastByteCalm(cfg: Settings, c: Core, p: nat, q: nat, k: Count)
    requires c.state.BodyIdentity? || c.state.ChunkData?
    requires p < q <= |k.all| && q - p == c.contentLength && CalmMid(cfg, c, p, k)
    ensures CalmMid(cfg, c.(contentLength := 1), q - 1, k)
  {
    hide Dispatch, CalmTop, CalmMid;
    if p < q - 1 {
      BlockCalm(cfg, c, p, q - 1, k);
      TopStep(cfg, c.(contentLength := 1), q - 1, k);
    }
  }

  lemma LastOfChunkCalm(cfg: Settings, c: Core, p: nat, q: nat, k: Count)
    requires c.state.ChunkData? && p < q <= |k.all| && q - p == c.contentLength && CalmMid(cfg, c, p, k)
    ensures CalmTop(cfg, c.(contentLength := 0, state := ChunkDataAlmostDone), q, k)
  {
    hide Dispatch, CalmTop, CalmMid;
    LastByteCalm(cfg, c, p, q, k);
    BodyByte(cfg, c.(contentLength := 1), k.all[q - 1]);
    MidStep(cfg, c.(contentLength := 1), q - 1, k);
  }

  lemma LastBlockCalm(cfg: Settings, c: Core, p: nat, q: nat, k: Count)
    requires c.state.BodyIdentity? && p < q <= |k.all| && q - p == c.contentLength && CalmMid(cfg, c, p, k)
    ensures CalmMid(cfg, c.(contentLength := 0, state := MessageDone), q - 1, k)
  {
    hide Dispatch, CalmTop, CalmMid;
    LastByteCalm(cfg, c, p, q, k);
    BodyByte(cfg, c.(contentLength := 1), k.all[q - 1]);
    MidStep(cfg, c.(contentLength := 1), q - 1, k);
  }

  lemma {:induction false} EofCalm(cfg: Settings, c: Core, p: nat, q: nat, k: Count)
    requires c.state.BodyIdentityEof? && p < q <= |k.all| && CalmMid(cfg, c, p, k)
    ensures CalmTop(cfg, c, q, k)
    decreases q - p
  {
    hide Dispatch, CalmTop, CalmMid;
    EofByte(cfg, c, k.all[p]);
    MidStep(cfg, c, p, k);
    if p + 1 < q {
      TopStep(cfg, c, p + 1, k);
      EofCalm(cfg, c, p + 1, q, k);
    }
  }

  /** The count after a run from p to q, whose first byte had been counted in k. */
  function RunCount(k: Count, p: nat, q: nat): Count
    requires p < q
  {
    k.(n := k.n + (q - p) - 1)
  }

  /** A byte further in a run. */
  lemma RunStep(cfg: Settings, c: Core, p: nat, k: Count)
    requires InRun(c.state) && p < |k.all| && CalmTop(cfg, c, p, k)
    ensures k.n + 1 + k.slack <= HTTP_MAX_HEADER_SIZE && CalmMid(cfg, c, p, k.(n := k.n + 1))
  {
    hide Dispatch, CalmMid;
    TopStep(cfg, c, p, k);
  }

  /** A general header value without a line end counts byte for byte. */
  lemma {:induction false} GeneralCalm(cfg: Settings, c: Core, p: nat, q: nat, k: Count)
    requires InGeneral(c) && p < q <= |k.all| && CalmMid(cfg, c, p, k) && NoLineEnd(k.all, p, q) &&
             Allowed(c, k.all, p, q)
    ensures CalmTop(cfg, c, q, RunCount(k, p, q)) && RunCount(k, p, q).n + k.slack <= HTTP_MAX_HEADER_SIZE
    decreases q - p
  {
    hide Dispatch, CalmTop, CalmMid;
    GeneralByte(cfg, c, k.all[p]);
    MidStep(cfg, c, p, k);
    if p + 1 < q {
      RunStep(cfg, c, p + 1, k);
      GeneralCalm(cfg, c, p + 1, q, k.(n := k.n + 1));
    }
  }

  /** What a feed that does not slip says about a general header value. */
  lemma {:induction false} GeneralChars(cfg: Settings, c: Core, data: seq<char>, p: nat, q: nat)
    requires InGeneral(c) && p < q <= |data| && NoLineEnd(data, p, q) && !Forbidden(c, data[p]) &&
             !Slips(cfg, c, data, p)
    ensures Allowed(c, data, p, q)
  {
    hide Feed, Slips;
    if !Allowed(c, data, p, q) {
      RunSlips(cfg, c, data, p, q);
    }
  }

  /** A general header value that runs on past the limit is not within it. */
  lemma TooLong(cfg: Settings, c: Core, data: seq<char>, p: nat, k: Count)
    requires InGeneral(c) && p + HTTP_MAX_HEADER_SIZE < |data| && data <= k.all && 1 <= k.slack
    requires NoLineEnd(data, p, p + HTTP_MAX_HEADER_SIZE) && !Forbidden(c, data[p]) && !Slips(cfg, c, data, p)
    ensures !CalmMid(cfg, c, p, k)
  {
    hide Dispatch, CalmTop, CalmMid, Slips;
    var q := p + HTTP_MAX_HEADER_SIZE;
    GeneralChars(cfg, c, data, p, q);
    if CalmMid(cfg, c, p, k) {
      GeneralCalm(cfg, c, p, q, k);
      RunStep(cfg, c, q, RunCount(k, p, q));
    }
  }

  // ---------------------------------------------------------------- backwards

  /** A body block that exhausts its chunk, backwards. */
  lemma {:induction false} BlockBack(cfg: Settings, c: Core, p: nat, q: nat, k: Count)
    requires c.state.ChunkData? && p < q <= |k.all| && q - p == c.contentLength &&
             k.n + 1 + k.slack <= HTTP_MAX_HEADER_SIZE
    requires CalmTop(cfg, c.(contentLength := 0, state := ChunkDataAlmostDone), q, k)
    ensures CalmTop(cfg, c, p, k)
    decreases q - p
  {
    hide Dispatch, CalmTop, CalmMid;
    BodyByte(cfg, c, k.all[p]);
    if p + 1 < q {
      BlockBack(cfg, c.(contentLength := c.contentLength - 1), p + 1, q, k);
    }
    StepBack(cfg, c, p, k);
  }
}

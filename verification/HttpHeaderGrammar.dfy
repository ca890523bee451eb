/**
 * The header lines that the parser accepts are exactly those of a grammar whose values are acceptable.
 */
module HttpHeaderGrammar {
  import opened HttpChars
  import opened HttpParserTypes
  import opened HttpParserStep
  import opened HttpParserFeed
  import opened HttpHeaderNames
  import opened HttpHeaderValues
  import opened HttpHeaders
  import opened HttpLineGrammar

  // ---------------------------------------------------------------- header lines

  predicate NotCr(ch: char) {
    ch != CR
  }

  predicate IsWhiteChar(ch: char) {
    ch == ' ' || ch == '\t'
  }

  lemma FieldBytes(cfg: Settings, c: Core, ch: char)
    requires !IsToken(ch)
    ensures c.state.HeaderFieldStart? && ch != CR && ch != LF ==> Dispatch(cfg, c, ch).act.Fail?
    ensures c.state.HeaderField? && ch != ':' ==> Dispatch(cfg, c, ch).act.Fail?
  {
  }

  lemma ValueByte(cfg: Settings, c: Core, ch: char)
    requires c.state.HeaderValue? && ch != CR && ch != LF
    ensures var o := Dispatch(cfg, c, ch);
            && (o.act.Fail? || (o.act.Advance? && o.core.state.HeaderValue? && o.core.lenient == c.lenient))
            && (Forbidden(c, ch) ==> o.act.Fail?)
  {
  }

  lemma ValueFirst(cfg: Settings, c: Core, ch: char)
    requires c.state.HeaderValueDiscardWs? && ch != ' ' && ch != '\t' && ch != CR && ch != LF
    ensures var o := Dispatch(cfg, c, ch);
            o.act.Fail? || (o.act.Advance? && o.core.state.HeaderValue? && o.core.lenient == c.lenient)
  {
  }

  lemma ValueEndBytes(cfg: Settings, c: Core, ch: char)
    requires ch != LF
    ensures c.state.HeaderAlmostDone? ==> Dispatch(cfg, c, ch).act.Fail?
    ensures c.state.HeaderValueDiscardWsAlmostDone? ==> Dispatch(cfg, c, ch).act.Fail?
  {
  }

  /** The rest of a value: a byte it may not hold stops the parser. */
  lemma {:induction false} ValueHolds(cfg: Settings, c: Core, v: seq<char>)
    requires c.state.HeaderValue? && CR !in v && LF !in v
    ensures Stops(cfg, c, v) || (Feed(cfg, c, v, 0).core.state.HeaderValue? &&
            forall i :: 0 <= i < |v| ==> !Forbidden(c, v[i]))
    decreases |v|
  {
    hide Dispatch, Feed, Stops, Forbidden;
    if v == [] {
      NothingLeft(cfg, c, v);
    } else {
      ValueByte(cfg, c, v[0]);
      StopsFirst(cfg, c, v);
      var o := Dispatch(cfg, c, v[0]);
      if o.act.Advance? {
        ValueHolds(cfg, o.core, v[1..]);
        CoreRest(cfg, c, v);
        SameForbidden(c, o.core, v);
      }
    }
  }

  lemma SameForbidden(c: Core, d: Core, v: seq<char>)
    requires c.lenient == d.lenient && v != []
    requires !Forbidden(c, v[0])
    ensures (forall i :: 0 <= i < |v[1..]| ==> !Forbidden(d, v[1..][i])) ==>
              forall i :: 0 <= i < |v| ==> !Forbidden(c, v[i])
  {
    forall i | 0 < i < |v| && !Forbidden(d, v[i])
      ensures !Forbidden(c, v[1..][i - 1])
    {
    }
    assert forall i :: 0 < i < |v| ==> v[i] == v[1..][i - 1];
  }

  /** A whole value. */
  lemma WholeValue(cfg: Settings, c: Core, v: seq<char>)
    requires c.state.HeaderValueDiscardWs? && Starts(v) && CR !in v && LF !in v
    ensures Stops(cfg, c, v) || (Feed(cfg, c, v, 0).core.state.HeaderValue? && IsValue(c.lenient, v))
  {
    hide Dispatch, Feed, Stops;
    ValueFirst(cfg, c, v[0]);
    StopsFirst(cfg, c, v);
    var o := Dispatch(cfg, c, v[0]);
    if o.act.Advance? {
      ValueHolds(cfg, o.core, v[1..]);
      CoreRest(cfg, c, v);
      assert forall i :: 0 < i < |v| ==> v[i] == v[1..][i - 1];
    }
  }

  /** A CR within a line. */
  lemma CrStops(cfg: Settings, c: Core, q: seq<char>)
    requires (c.state.HeaderValue? || c.state.HeaderValueDiscardWs?) && |q| > 1 && q[0] == CR && q[1] != LF
    ensures Stops(cfg, c, q)
  {
    hide Dispatch, Feed;
    LineEndBytes(cfg, c);
    StopsFirst(cfg, c, q);
    ValueEndBytes(cfg, Dispatch(cfg, c, CR).core, q[1]);
    StopsFirst(cfg, Dispatch(cfg, c, CR).core, q[1..]);
  }

  /** What follows the colon and the white space, if the parser does not stop. */
  lemma ValueSplit(cfg: Settings, c: Core, q: seq<char>) returns (v: seq<char>, cr: bool)
    requires c.state.HeaderValueDiscardWs? && LF !in q && (q == [] || !IsWhiteChar(q[0]))
    requires !Stops(cfg, c, q + [LF])
    ensures q == v + Cr(cr) && (v == [] || (Starts(v) && IsValue(c.lenient, v)))
  {
    hide Dispatch, Feed, Stops, IsValue;
    var k := Leading(q, NotCr);
    v := q[..k];
    cr := k < |q|;
    assert q + [LF] == v + (q[k..] + [LF]);
    StopsSplit(cfg, c, v, q[k..] + [LF]);
    assert CR !in v && LF !in v;
    var d := Feed(cfg, c, v, 0).core;
    if v == [] {
      NothingLeft(cfg, c, v);
    } else {
      WholeValue(cfg, c, v);
    }
    if k + 1 < |q| {
      CrStops(cfg, d, q[k..] + [LF]);
    }
    assert q[k..] == Cr(cr);
  }

  /** The name of a header line that the parser does not stop in, and its colon. */
  lemma NameSplit(cfg: Settings, c: Core, b: seq<char>)
    requires c.state.HeaderFieldStart? && LF !in b && b != [] && b[0] != CR && !Stops(cfg, c, b + [LF])
    ensures var n := Leading(b, IsToken); 0 < n < |b| && b[n] == ':'
  {
    hide Dispatch, Feed, Stops, IsToken, Recognises, LowerCase, IsFieldHState;
    var n := Leading(b, IsToken);
    var line := b + [LF];
    if n == 0 {
      FieldBytes(cfg, c, b[0]);
      StopsFirst(cfg, c, line);
    } else {
      var name, rest := b[..n], b[n..] + [LF];
      NameRecognised(cfg, c, name);
      StopsAs(cfg, c, name);
      var c1 := Feed(cfg, c, name, 0).core;
      assert line == name + rest;
      CoreSplit(cfg, c, name, rest);
      if n == |b| || b[n] != ':' {
        LfNoToken();
        FieldBytes(cfg, c1, rest[0]);
        StopsFirst(cfg, c1, rest);
      }
    }
  }

  /** A header line, but for its LF, if the parser does not stop in it. */
  lemma HeaderSplit(cfg: Settings, c: Core, b: seq<char>) returns (l: Line)
    requires c.state.HeaderFieldStart? && LF !in b && b != [] && b[0] != CR && !Stops(cfg, c, b + [LF])
    ensures l.Fits(c.lenient) && l.Text() == b + [LF]
  {
    hide Stops, IsToken, Line.Fits, Line.Text;
    NameSplit(cfg, c, b);
    var n := Leading(b, IsToken);
    var r := b[n + 1..];
    var g := Leading(r, IsWhiteChar);
    assert b == b[..n] + ":" + r[..g] + r[g..];
    l := HeaderSplitAt(cfg, c, b, b[..n], r[..g], r[g..]);
  }

  lemma LfNoToken()
    ensures !IsToken(LF)
  {
  }

  lemma HeaderSplitAt(cfg: Settings, c: Core, b: seq<char>, name: seq<char>, ws: seq<char>, q: seq<char>)
    returns (l: Line)
    requires c.state.HeaderFieldStart? && LF !in b && !Stops(cfg, c, b + [LF])
    requires IsName(name) && IsWhite(ws) && b == name + ":" + ws + q && (q == [] || !IsWhiteChar(q[0]))
    ensures l.Fits(c.lenient) && l.Text() == b + [LF]
  {
    hide Dispatch, Feed, Stops, IsValue, IsName, Recognises, LowerCase, Starts;
    var head := name + ":" + ws;
    FeedHead(cfg, c, name, ws);
    StopsAs(cfg, c, head);
    assert b + [LF] == head + (q + [LF]);
    CoreSplit(cfg, c, head, q + [LF]);
    assert forall i :: 0 <= i < |q| ==> q[i] == b[|head| + i];
    var v, cr := ValueSplit(cfg, Feed(cfg, c, head, 0).core, q);
    l := Line(name, ws, v, !cr);
    assert v + Cr(cr) + [LF] == v + LineEnd(!cr);
  }

  /**
   * A header line is accepted if and only if it is one of the grammar, and its value is acceptable under its name.
   */
  lemma HeaderLineIff(cfg: Settings, c: Core, b: seq<char>)
    requires c.state.HeaderFieldStart? && c.errno.Ok? && LF !in b && b != [] && b[0] != CR
    ensures Stops(cfg, c, b + [LF]) <==>
            !exists l: Line :: l.Fits(c.lenient) && l.Text() == b + [LF] && Acceptable(c.flags, LowerCase(l.name), l.v)
  {
    hide Feed, Stops, Line.Fits, Line.Text, Acceptable, LowerCase, LineFlags, LineLength;
    if !Stops(cfg, c, b + [LF]) {
      var l := HeaderSplit(cfg, c, b);
      HeaderLine(cfg, c, l, 'x');
      StopsAs(cfg, c, b + [LF]);
    }
    forall l: Line | l.Fits(c.lenient) && l.Text() == b + [LF] && Acceptable(c.flags, LowerCase(l.name), l.v)
      ensures !Stops(cfg, c, b + [LF])
    {
      HeaderLine(cfg, c, l, 'x');
      StopsAs(cfg, c, b + [LF]);
    }
  }

  lemma LastCrByte(cfg: Settings, c: Core, x: char)
    ensures c.state.HeaderFieldStart? ==> Dispatch(cfg, c, CR) == To(c, HeadersAlmostDone)
    ensures c.state.HeadersAlmostDone? && x != LF ==> Dispatch(cfg, c, x).act.Fail?
  {
  }

  /** The CR of the empty line has to be followed by its LF. */
  lemma LastCrStops(cfg: Settings, c: Core, x: char)
    requires c.state.HeaderFieldStart? && x != LF
    ensures Stops(cfg, c, [CR, x])
  {
    hide Dispatch, Feed;
    LastCrByte(cfg, c, x);
    StopsFirst(cfg, c, [CR, x]);
    LastCrByte(cfg, c.(state := HeadersAlmostDone), x);
    StopsAtLast(cfg, c.(state := HeadersAlmostDone), x);
  }

  lemma FoldByte(cfg: Settings, c: Core, ch: char)
    requires c.state.HeaderValueDiscardLws? && IsWhiteChar(ch)
    ensures Dispatch(cfg, c, ch) == To(c, HeaderValueDiscardWs)
  {
  }

  /** A line without a value goes on in the next one, if that begins with white space, as if there were no line end. */
  lemma EmptyLineFolds(cfg: Settings, c: Core, l: Line, ch: char)
    requires c.state.HeaderFieldStart? && l.Fits(c.lenient) && l.v == [] && IsWhiteChar(ch)
    ensures Feed(cfg, c, l.Text() + [ch], 0).core == Feed(cfg, c, l.name + ":" + l.ws + [ch], 0).core
  {
    hide Dispatch, Feed, Slips, SlipsAt, IsName, Recognises, LowerCase, IsFieldHState;
    var head, end := l.name + ":" + l.ws, LineEnd(l.bare);
    assert l.Text() + [ch] == head + (end + [ch]);
    FeedHead(cfg, c, l.name, l.ws);
    StopsAs(cfg, c, head);
    var d := Feed(cfg, c, head, 0).core;
    CoreSplit(cfg, c, head, end + [ch]);
    CoreSplit(cfg, c, head, [ch]);
    var d1 := d.(state := HeaderValueDiscardLws);
    FeedLineEnd(cfg, d, l.bare);
    StopsAs(cfg, d, end);
    CoreSplit(cfg, d, end, [ch]);
    FoldByte(cfg, d1, ch);
    CoreRest(cfg, d1, [ch]);
    WhiteByte(cfg, d, ch);
    CoreRest(cfg, d, [ch]);
  }
}

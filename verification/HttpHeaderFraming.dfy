/**
 * The choice of the body's framing at the end of the headers, against section 3.3.3 of RFC 7230, which reads it off the
 * header lines: what the parser has made of these does not come into it.
 */
module HttpHeaderFraming {
  import opened Basics
  import opened HttpChars
  import opened HttpParserTypes
  import opened HttpParserStep
  import opened HttpParserFeed
  import opened HttpHeaderNames
  import opened HttpHeaderValues
  import opened HttpNumbers
  import opened HttpHeaders

  // ---------------------------------------------------------------- what the lines say

  /** The values of the header with the lower-cased name n, one for each line. */
  function Values(lines: seq<Line>, n: seq<char>): seq<seq<char>> {
    if lines == [] then []
    else (if lines[0].Is(n) then [lines[0].v] else []) + Values(lines[1..], n)
  }

  /** Without the white space at its end. */
  function RightTrim(s: seq<char>): (t: seq<char>)
    ensures t <= s
  {
    if s != [] && (s[|s| - 1] == ' ' || s[|s| - 1] == '\t') then RightTrim(s[..|s| - 1]) else s
  }

  /** Without the white space around it. */
  function Trim(s: seq<char>): seq<char> {
    if s != [] && (s[0] == ' ' || s[0] == '\t') then Trim(s[1..]) else RightTrim(s)
  }

  /** The elements of a list: it is cut at the commas, but not inside a quoted string. */
  function Elements(v: seq<char>, piece: seq<char>, quoted: bool): seq<seq<char>>
    decreases |v|
  {
    if v == [] then [piece]
    else if quoted && v[0] == '\\' && 1 < |v| then Elements(v[2..], piece + v[..2], true)
    else if v[0] == '"' then Elements(v[1..], piece + [v[0]], !quoted)
    else if v[0] == ',' && !quoted then [piece] + Elements(v[1..], [], false)
    else Elements(v[1..], piece + [v[0]], quoted)
  }

  /** The elements that are not empty, which are not counted in a list (section 7 of RFC 7230). */
  function Members(pieces: seq<seq<char>>): seq<seq<char>> {
    if pieces == [] then []
    else (if Trim(pieces[0]) == [] then [] else [Trim(pieces[0])]) + Members(pieces[1..])
  }

  /** The codings that the values of a Transfer-Encoding header list. */
  function Codings(values: seq<seq<char>>): seq<seq<char>> {
    if values == [] then [] else Members(Elements(values[0], [], false)) + Codings(values[1..])
  }

  /** The final coding is chunked. */
  predicate EndsChunked(values: seq<seq<char>>) {
    var codings := Codings(values);
    codings != [] && var last := codings[|codings| - 1]; |last| == |CHUNKED| && Names(last, CHUNKED)
  }

  /** A Content-Length value as the standard has it: digits, with white space around them at most. */
  predicate IsLength(v: seq<char>) {
    Trim(v) != [] && forall i :: 0 <= i < |Trim(v)| ==> IsNum(Trim(v)[i])
  }

  function LengthOf(v: seq<char>): nat
    requires IsLength(v)
  {
    Decimal(0, Trim(v))
  }

  /** Some length, and only one. */
  predicate OneLength(values: seq<seq<char>>) {
    && values != []
    && (forall i :: 0 <= i < |values| ==> IsLength(values[i]))
    && forall i :: 0 <= i < |values| ==> LengthOf(values[i]) == LengthOf(values[0])
  }

  // ---------------------------------------------------------------- the framing of the standard

  datatype Framing = NoBody | ChunkedBody | Declared(length: nat) | UntilClose | Refused

  /** A response that never has a body, whatever its header says. */
  predicate Bodiless(c: Core) {
    !c.kind.Request? && (c.status / 100 == 1 || c.status == 204 || c.status == 304)
  }

  function OfLength(n: nat): Framing {
    if n == 0 then NoBody else Declared(n)
  }

  /**
   * The framing of section 3.3.3 of RFC 7230, from the header lines of a message. That a response answers a HEAD, or
   * with success a CONNECT, is for the application to know, and its verdict says so.
   */
  function ByStandard(c: Core, lines: seq<Line>): Framing {
    var codings, lengths := Values(lines, TRANSFER_ENCODING), Values(lines, CONTENT_LENGTH);
    if c.flags.skipBody || Bodiless(c) then NoBody
    else if codings != [] then
      if EndsChunked(codings) then ChunkedBody else if c.kind.Request? then Refused else UntilClose
    else if lengths != [] then if OneLength(lengths) then OfLength(LengthOf(lengths[0])) else Refused
    else if c.kind.Request? then NoBody
    else UntilClose
  }

  // ---------------------------------------------------------------- what the parser makes of the lines

  /** A line of its own names the chunked coding, and nothing else but spaces behind it: only such a line is noticed. */
  predicate Noticed(values: seq<seq<char>>) {
    exists i :: 0 <= i < |values| && Names(values[i], CHUNKED)
  }

  predicate AllEmpty(values: seq<seq<char>>) {
    forall i :: 0 <= i < |values| ==> values[i] == []
  }

  lemma NoticedStep(v: seq<char>, more: seq<seq<char>>)
    ensures Noticed([v] + more) <==> Names(v, CHUNKED) || Noticed(more)
  {
    var all := [v] + more;
    if i :| 0 <= i < |more| && Names(more[i], CHUNKED) {
      assert all[i + 1] == more[i];
    }
    if Names(v, CHUNKED) {
      assert all[0] == v;
    }
  }

  lemma ChunkedFlag(f: Flags, n: seq<char>, v: seq<char>)
    ensures LineFlags(f, n, v).chunked <==> f.chunked || (n == TRANSFER_ENCODING && Names(v, CHUNKED))
    ensures LineFlags(f, n, v).contentLength <==> f.contentLength || (n == CONTENT_LENGTH && v != [])
  {
    hide Heard, OptionsOf, WithOptions;
    if v != [] {
      OptionsFlags(f, Heard(OptionsOf(v), true));
    }
  }

  lemma OptionsFlags(f: Flags, options: seq<seq<char>>)
    ensures var g := WithOptions(f, options); g.chunked == f.chunked && g.contentLength == f.contentLength
  {
    hide Named;
  }

  /** The chunked flag behind all the lines. */
  lemma {:induction false} ToldChunked(f: Flags, length: nat, lines: seq<Line>)
    requires AllAcceptable(f, lines)
    ensures Told(f, length, lines).0.chunked <==> f.chunked || Noticed(Values(lines, TRANSFER_ENCODING))
    decreases |lines|
  {
    hide LowerCase, LineFlags, Acceptable, LineLength, Names, Noticed;
    if lines == [] {
      assert !Noticed([]) by { NothingNoticed(); }
    } else {
      var n, v := LowerCase(lines[0].name), lines[0].v;
      ChunkedFlag(f, n, v);
      ToldChunked(LineFlags(f, n, v), LineLength(length, n, v), lines[1..]);
      NoticedStep(v, Values(lines[1..], TRANSFER_ENCODING));
      assert [] + Values(lines[1..], TRANSFER_ENCODING) == Values(lines[1..], TRANSFER_ENCODING);
    }
  }

  lemma NothingNoticed()
    ensures !Noticed([])
  {
  }

  /** What an accepted header has for lengths: one value at most that is not empty, and that is the length told. */
  predicate LengthTold(length: nat, before: nat, values: seq<seq<char>>) {
    && (AllEmpty(values) ==> length == before)
    && (forall i :: 0 <= i < |values| && values[i] != [] ==>
          IsNum(values[i][0]) && IsNumber(values[i]) && length == Decimal(0, values[i]) < ULLONG_MAX)
    && (forall i, j :: 0 <= i < j < |values| ==> values[i] == [] || values[j] == [])
  }

  lemma LengthStep(length: nat, before: nat, v: seq<char>, more: seq<seq<char>>)
    requires v == [] ==> LengthTold(length, before, more)
    requires v != [] ==>
               IsNum(v[0]) && IsNumber(v) && Decimal(0, v) < ULLONG_MAX && AllEmpty(more) &&
               LengthTold(length, Decimal(0, v), more)
    ensures LengthTold(length, before, [v] + more)
  {
    hide Decimal;
    var all := [v] + more;
    assert all[0] == v && forall i :: 0 < i < |all| ==> all[i] == more[i - 1];
    if AllEmpty(all) {
      assert AllEmpty(more) by {
        forall i | 0 <= i < |more|
          ensures more[i] == []
        {
          assert all[i + 1] == more[i];
        }
      }
    }
  }

  /** The length and its flag behind all the lines. */
  lemma {:induction false} ToldLength(f: Flags, length: nat, lines: seq<Line>)
    requires AllAcceptable(f, lines)
    ensures var t, values := Told(f, length, lines), Values(lines, CONTENT_LENGTH);
            && LengthTold(t.1, length, values) && (f.contentLength ==> AllEmpty(values))
            && (t.0.contentLength <==> f.contentLength || !AllEmpty(values))
    decreases |lines|
  {
    hide LowerCase, LineFlags, LineLength, Decimal, IsNumber, LengthTold;
    if lines == [] {
      assert LengthTold(length, length, []) by { NoLengthTold(length); }
    } else {
      var n, v := LowerCase(lines[0].name), lines[0].v;
      var more := Values(lines[1..], CONTENT_LENGTH);
      ChunkedFlag(f, n, v);
      LineLengths(f, length, n, v);
      ToldLength(LineFlags(f, n, v), LineLength(length, n, v), lines[1..]);
      if n == CONTENT_LENGTH {
        LengthStep(Told(f, length, lines).1, length, v, more);
        assert Values(lines, CONTENT_LENGTH)[0] == v;
        assert forall i :: 0 <= i < |more| ==> Values(lines, CONTENT_LENGTH)[i + 1] == more[i];
      } else {
        assert [] + more == more;
      }
    }
  }

  lemma NoLengthTold(length: nat)
    ensures LengthTold(length, length, [])
  {
  }

  /** A length whose digits fit is below the number that stands for none. */
  lemma {:induction false} FitsBelow(v: seq<char>)
    requires IsNumber(v) && LengthFits(0, v)
    ensures Decimal(0, v) < ULLONG_MAX
    decreases |v|
  {
    if v != [] {
      var most := v[..|v| - 1];
      assert forall i :: 0 <= i < |most| ==> most[..i] == v[..i];
      FitsBelow(most);
    }
  }

  lemma LineLengths(f: Flags, length: nat, n: seq<char>, v: seq<char>)
    requires Acceptable(f, n, v)
    ensures n != CONTENT_LENGTH || v == [] ==> LineLength(length, n, v) == length
    ensures n == CONTENT_LENGTH && v != [] ==>
              LineLength(length, n, v) == Decimal(0, v) < ULLONG_MAX && IsNum(v[0]) && IsNumber(v)
  {
    if n == CONTENT_LENGTH && v != [] {
      FitsBelow(v);
    }
  }

  lemma {:induction false} TrimmedNumber(v: seq<char>)
    requires IsNumber(v)
    ensures Decimal(0, RightTrim(v)) == Decimal(0, v)
    decreases |v|
  {
    if v != [] && v[|v| - 1] == ' ' {
      TrimmedNumber(v[..|v| - 1]);
    }
  }

  /** The parser reads a length as the standard does, when the standard does. */
  lemma SameLength(v: seq<char>)
    requires v != [] && IsNum(v[0]) && IsNumber(v)
    ensures IsLength(v) ==> LengthOf(v) == Decimal(0, v)
  {
    hide Decimal;
    TrimmedNumber(v);
  }

  // ---------------------------------------------------------------- the choice

  /** Another protocol begins behind the header. */
  predicate Leaves(c: Core) {
    c.upgrade && (c.meth.CONNECT? || c.flags.skipBody || !HasBody(c))
  }

  /** The dispatch that ends the headers goes on to a body in this framing; without a body the message is complete. */
  predicate Chooses(o: Out, c: Core, framing: Framing) {
    match framing
    case NoBody =>
      o.act == (if Leaves(c) then Exit else Advance) && o.core == c.(state := NewMessage(c)) &&
      o.notes == [MessageComplete]
    case ChunkedBody => o.act.Advance? && o.core == c.(state := ChunkSizeStart) && o.notes == []
    case Declared(n) =>
      o.act.Advance? && o.core == c.(state := BodyIdentity) && o.core.contentLength == n && o.notes == []
    case UntilClose => o.act.Advance? && o.core == c.(state := BodyIdentityEof) && o.notes == []
    case Refused => false
  }

  /** The framing the parser goes by, in its own terms. */
  function Picked(c: Core): Framing {
    if Leaves(c) || c.flags.skipBody then NoBody
    else if c.flags.chunked then ChunkedBody
    else if c.contentLength != ULLONG_MAX then OfLength(c.contentLength)
    else if c.kind.Request? || Bodiless(c) then NoBody
    else UntilClose
  }

  lemma NewMessageFresh(c: Core)
    ensures var s := NewMessage(c); !s.ChunkSizeStart? && !s.BodyIdentity? && !s.BodyIdentityEof?
  {
  }

  lemma ChoosesPicked(cfg: Settings, c: Core, framing: Framing)
    requires c.state.HeadersDone?
    ensures Chooses(Dispatch(cfg, c, LF), c, framing) <==> framing == Picked(c)
  {
    hide NewMessage;
    NewMessageFresh(c);
  }

  /** The chunked flag and the length are what the lines have left. */
  predicate Reads(c: Core, lines: seq<Line>) {
    && (c.flags.chunked <==> Noticed(Values(lines, TRANSFER_ENCODING)))
    && LengthTold(c.contentLength, ULLONG_MAX, Values(lines, CONTENT_LENGTH))
    && (c.flags.chunked ==> AllEmpty(Values(lines, CONTENT_LENGTH)))
  }

  /**
   * When the framing chosen is that of the standard. A coding must be chunked at the end and noticed, or be in a
   * response, not noticed, and no length beside it; a length must be one. A response without a body, and a message
   * behind which another protocol begins, must have neither.
   */
  predicate RightlyFramed(c: Core, lines: seq<Line>) {
    var codings, lengths := Values(lines, TRANSFER_ENCODING), Values(lines, CONTENT_LENGTH);
    if c.flags.skipBody then true
    else if Bodiless(c) then Leaves(c) || !HasBody(c)
    else if Leaves(c) then
      codings == [] && if lengths == [] then c.kind.Request? else OneLength(lengths) && c.contentLength == 0
    else if codings != [] then
      if EndsChunked(codings) then Noticed(codings) else !c.kind.Request? && !Noticed(codings) && AllEmpty(lengths)
    else lengths == [] || OneLength(lengths)
  }

  /** Some length of an accepted header is the length told. */
  lemma LengthIsTold(length: nat, values: seq<seq<char>>)
    requires LengthTold(length, ULLONG_MAX, values)
    ensures OneLength(values) ==> LengthOf(values[0]) == length < ULLONG_MAX
    ensures AllEmpty(values) <==> length == ULLONG_MAX
  {
    hide Decimal, IsNumber, LengthOf;
    if !AllEmpty(values) {
      var i :| 0 <= i < |values| && values[i] != [];
      if OneLength(values) {
        SameLength(values[i]);
      }
    }
  }

  /** A rightly framed message: the parser goes by the framing of the standard. */
  lemma PickedFraming(c: Core, lines: seq<Line>)
    requires Reads(c, lines)
    ensures ByStandard(c, lines) == Picked(c) <==> RightlyFramed(c, lines)
  {
    hide Values, Noticed, LengthTold, OneLength, LengthOf, EndsChunked, AllEmpty;
    LengthIsTold(c.contentLength, Values(lines, CONTENT_LENGTH));
    NothingNoticed();
    EmptyIsAllEmpty();
  }

  /**
   * At the end of the headers the body is read in the framing that the standard takes from the header lines if and only
   * if that is so.
   */
  lemma FramingIff(cfg: Settings, c: Core, lines: seq<Line>)
    requires c.state.HeadersDone? && Reads(c, lines)
    ensures Chooses(Dispatch(cfg, c, LF), c, ByStandard(c, lines)) <==> RightlyFramed(c, lines)
  {
    hide Dispatch, Chooses, Reads, ByStandard, RightlyFramed, Picked;
    ChoosesPicked(cfg, c, ByStandard(c, lines));
    PickedFraming(c, lines);
  }

  lemma EmptyIsAllEmpty()
    ensures AllEmpty([]) && !OneLength([])
  {
  }

  /** When another protocol begins, the message is complete and the parser leaves. */
  lemma LeavesAtOnce(cfg: Settings, c: Core)
    requires c.state.HeadersDone? && Leaves(c)
    ensures var o := Dispatch(cfg, c, LF);
            o.act.Exit? && o.notes == [MessageComplete] && o.core == c.(state := NewMessage(c))
  {
  }

  /** A 304 that names the length of what it does not carry makes the parser wait for that many bytes. */
  lemma NotModifiedWaits(cfg: Settings, c: Core, lines: seq<Line>)
    requires c.state.HeadersDone? && c.kind.Response? && c.status == 304 && c.flags == NO_FLAGS.(contentLength := true)
    requires 0 < c.contentLength < ULLONG_MAX && !c.upgrade
    ensures ByStandard(c, lines) == NoBody && Chooses(Dispatch(cfg, c, LF), c, Declared(c.contentLength))
  {
    hide Dispatch, Chooses, Values, EndsChunked, OneLength, LengthOf;
    ChoosesPicked(cfg, c, Declared(c.contentLength));
  }

  /** The parser as the start of a message leaves it to its header. */
  predicate AtHeader(c: Core) {
    c.state.HeaderFieldStart? && c.errno.Ok? && c.flags == NO_FLAGS && c.contentLength == ULLONG_MAX
  }

  lemma EndFraming(cfg: Settings, c: Core, lines: seq<Line>, d: Core)
    requires AtHeader(c) && AllAcceptable(NO_FLAGS, lines) && Leads(c, lines, d) && Ends(cfg, d)
    ensures var e := Answered(cfg, d);
            Chooses(Dispatch(cfg, e, LF), e, ByStandard(e, lines)) <==> RightlyFramed(e, lines)
  {
    hide Dispatch, Chooses, ByStandard, RightlyFramed, Noticed, LengthTold, AllEmpty, Told, AllAcceptable, Values;
    ToldChunked(NO_FLAGS, ULLONG_MAX, lines);
    ToldLength(NO_FLAGS, ULLONG_MAX, lines);
    FramingIff(cfg, Answered(cfg, d), lines);
  }

  /**
   * A whole header: rejected exactly when a line is, or a length stands beside a chunked coding that is noticed, or the
   * application's verdict is none; and otherwise the body is read in the framing that the standard takes from the
   * lines, if and only if the lines are rightly framed.
   */
  lemma HeaderChooses(cfg: Settings, c: Core, lines: seq<Line>, bare: bool) returns (d: Core)
    requires AtHeader(c) && AllFit(lines, c.lenient)
    ensures var f := Feed(cfg, c, Texts(lines) + LineEnd(bare), 0);
            if AllAcceptable(NO_FLAGS, lines) && Ends(cfg, d) then
              var e := Answered(cfg, d); var o := Dispatch(cfg, e, LF);
              && f == Fed(o.core, |Texts(lines) + LineEnd(bare)|, LinesEvents(lines) + ([HeadersComplete] + o.notes),
                          o.act.Exit?)
              && (Chooses(o, e, ByStandard(e, lines)) <==> RightlyFramed(e, lines))
            else f.stopped && !f.core.errno.Ok?
    ensures AllAcceptable(NO_FLAGS, lines) ==> Leads(c, lines, d)
  {
    hide Dispatch, Feed, AllFit, AllAcceptable, Chooses, ByStandard, RightlyFramed, Texts, LinesEvents, Leads, Ends,
         Answered;
    d := FeedHeader(cfg, c, lines, bare);
    if AllAcceptable(NO_FLAGS, lines) && Ends(cfg, d) {
      EndFraming(cfg, c, lines, d);
    }
  }

  // ---------------------------------------------------------------- where it is not right

  /** Plain characters at the start of a list belong to its first element. */
  lemma {:induction false} SkipTo(v: seq<char>, n: nat)
    requires n <= |v| && forall i :: 0 <= i < n ==> v[i] != ',' && v[i] != '"'
    ensures Elements(v, [], false) == Elements(v[n..], v[..n], false)
  {
    SkipFrom(v, [], n);
    assert [] + v[..n] == v[..n];
  }

  lemma {:induction false} SkipFrom(v: seq<char>, piece: seq<char>, n: nat)
    requires n <= |v| && forall i :: 0 <= i < n ==> v[i] != ',' && v[i] != '"'
    ensures Elements(v, piece, false) == Elements(v[n..], piece + v[..n], false)
  {
    if n > 0 {
      SkipFrom(v[1..], piece + [v[0]], n - 1);
      assert v[1..][n - 1..] == v[n..] && piece + [v[0]] + v[1..][..n - 1] == piece + v[..n];
    } else {
      assert v[n..] == v && piece + v[..n] == piece;
    }
  }

  /** A chunked coding that stands alone on the last line is at the end, and is noticed. */
  lemma {:induction false} LastLineChunked(values: seq<seq<char>>)
    requires values != [] && Names(values[|values| - 1], CHUNKED)
    ensures EndsChunked(values) && Noticed(values)
  {
    if |values| == 1 {
      ChunkedAlone(values[0]);
      assert Codings(values) == Members(Elements(values[0], [], false)) + Codings([]);
    } else {
      var more := values[1..];
      assert more[|more| - 1] == values[|values| - 1];
      LastLineChunked(more);
      assert Codings(values) == Members(Elements(values[0], [], false)) + Codings(more);
    }
  }

  lemma ChunkedAlone(v: seq<char>)
    requires Names(v, CHUNKED)
    ensures var codings := Members(Elements(v, [], false));
            |codings| == 1 && |codings[0]| == |CHUNKED| && Names(codings[0], CHUNKED)
  {
    var n := |CHUNKED|;
    assert forall i :: 0 <= i < |v| ==> v[i] != ',' && v[i] != '"' by {
      forall i | 0 <= i < |v|
        ensures v[i] != ',' && v[i] != '"'
      {
        assert i < n ==> Lower(v[i]) == CHUNKED[i];
      }
    }
    SkipTo(v, |v|);
    assert v[..|v|] == v && v[|v|..] == [];
    assert Elements(v, [], false) == [v];
    TrimSpaces(v, n);
    assert Members([v]) == [v[..n]] + Members([]);
  }

  lemma {:induction false} TrimSpaces(v: seq<char>, n: nat)
    requires 0 < n <= |v| && v[0] != ' ' && v[0] != '\t' && v[n - 1] != ' ' && v[n - 1] != '\t'
    requires forall i :: n <= i < |v| ==> v[i] == ' '
    ensures Trim(v) == v[..n]
  {
    if |v| > n {
      var u := v[..|v| - 1];
      TrimSpaces(u, n);
      assert u[..n] == v[..n];
    } else {
      assert v[..n] == v;
    }
  }

  lemma {:induction false} ElementsJoin(u: seq<char>, w: seq<char>, piece: seq<char>)
    requires '"' !in u
    ensures Elements(u + "," + w, piece, false) == Elements(u, piece, false) + Elements(w, [], false)
    decreases |u|
  {
    var v := u + "," + w;
    if u == [] {
      assert v[1..] == w;
    } else {
      assert v[0] == u[0] && v[1..] == u[1..] + "," + w;
      if u[0] == ',' {
        ElementsJoin(u[1..], w, []);
      } else {
        ElementsJoin(u[1..], w, piece + [u[0]]);
      }
    }
  }

  lemma {:induction false} MembersJoin(a: seq<seq<char>>, b: seq<seq<char>>)
    ensures Members(a + b) == Members(a) + Members(b)
  {
    if a == [] {
      assert a + b == b;
    } else {
      assert (a + b)[1..] == a[1..] + b;
      MembersJoin(a[1..], b);
    }
  }

  lemma {:induction false} TrimLeft(ws: seq<char>, w: seq<char>)
    requires IsWhite(ws)
    ensures Trim(ws + w) == Trim(w)
  {
    if ws == [] {
      assert ws + w == w;
    } else {
      assert (ws + w)[1..] == ws[1..] + w;
      TrimLeft(ws[1..], w);
    }
  }

  lemma PaddedElement(ws: seq<char>, w: seq<char>)
    requires IsWhite(ws) && Names(w, CHUNKED)
    ensures Members(Elements(ws + w, [], false)) == Members(Elements(w, [], false))
  {
    assert forall i :: 0 <= i < |w| ==> w[i] != ',' && w[i] != '"' by {
      forall i | 0 <= i < |w|
        ensures w[i] != ',' && w[i] != '"'
      {
        assert i < |CHUNKED| ==> Lower(w[i]) == CHUNKED[i];
      }
    }
    var v := ws + w;
    SkipTo(v, |v|);
    SkipTo(w, |w|);
    assert v[..|v|] == v && v[|v|..] == [] && w[..|w|] == w && w[|w|..] == [];
    assert Elements(v, [], false) == [v] && Elements(w, [], false) == [w];
    TrimLeft(ws, w);
  }

  /** No list of several codings with chunked at its end, on one line, is ever noticed. */
  lemma ListMissed(u: seq<char>, ws: seq<char>, w: seq<char>)
    requires '"' !in u && IsWhite(ws) && Names(w, CHUNKED)
    ensures EndsChunked([u + "," + ws + w]) && !Noticed([u + "," + ws + w])
  {
    var v := u + "," + ws + w;
    assert v == u + "," + (ws + w);
    ElementsJoin(u, ws + w, []);
    MembersJoin(Elements(u, [], false), Elements(ws + w, [], false));
    PaddedElement(ws, w);
    ChunkedAlone(w);
    var last := Members(Elements(w, [], false));
    assert Codings([v]) == Members(Elements(u, [], false)) + last + Codings([]);
    assert v[|u|] == ',';
    assert !Names(v, CHUNKED);
  }

  /**
   * A request with the coding gzip, chunked is taken to have no body, and is complete at the end of its headers; the
   * standard says that its body is chunked.
   */
  lemma GzipChunkedMissed(cfg: Settings, c: Core)
    requires AtHeader(c) && c.kind.Request? && !c.meth.CONNECT? && forall d :: cfg(d) == 0
    ensures var lines := [Line("Transfer-Encoding", " ", "gzip, chunked", false)];
            var f := Feed(cfg, c, Texts(lines) + CRLF, 0);
            && ByStandard(c, lines) == ChunkedBody
            && !f.stopped && f.events == LinesEvents(lines) + [HeadersComplete, MessageComplete]
  {
    hide Dispatch, Feed, AllFit, AllAcceptable, Told, Ends, Answered, Chooses, Values, RightlyFramed, Texts, Leads,
         EndsChunked, Line.Fits, LowerCase, Names;
    var l := Line("Transfer-Encoding", " ", "gzip, chunked", false);
    GzipMissed();
    CodingLine(l, c.lenient);
    CodingAccepted(l);
    var d := HeaderChooses(cfg, c, [l], false);
    CodingTold(c, l, d);
    PlainEnd(cfg, d);
    ChoosesPicked(cfg, Answered(cfg, d), NoBody);
    NoBodyChosen(Dispatch(cfg, Answered(cfg, d), LF), Answered(cfg, d));
    assert [HeadersComplete] + [MessageComplete] == [HeadersComplete, MessageComplete];
  }

  lemma GzipMissed()
    ensures EndsChunked(["gzip, chunked"]) && !Noticed(["gzip, chunked"])
  {
    assert "gzip" + "," + " " + "chunked" == "gzip, chunked";
    ListMissed("gzip", " ", "chunked");
  }

  lemma NoBodyChosen(o: Out, c: Core)
    requires Chooses(o, c, NoBody) && !Leaves(c)
    ensures o.act.Advance? && o.notes == [MessageComplete]
  {
  }

  /** The end of a header that has set nothing, of a request to which the application has nothing to say. */
  lemma PlainEnd(cfg: Settings, d: Core)
    requires d.flags == NO_FLAGS && d.contentLength == ULLONG_MAX && d.kind.Request? && !d.meth.CONNECT?
    requires forall c :: cfg(c) == 0
    ensures Ends(cfg, d) && var e := Answered(cfg, d); e.state.HeadersDone? && Picked(e) == NoBody && !Leaves(e)
  {
  }

  lemma CodingLine(l: Line, lenient: bool)
    requires l == Line("Transfer-Encoding", " ", "gzip, chunked", false)
    ensures AllFit([l], lenient) && LowerCase(l.name) == TRANSFER_ENCODING && !Names(l.v, CHUNKED)
    ensures Values([l], TRANSFER_ENCODING) == [l.v] && Values([l], CONTENT_LENGTH) == []
  {
    assert [l][1..] == [];
    assert l.v[0] == 'g';
  }

  lemma CodingAccepted(l: Line)
    requires LowerCase(l.name) == TRANSFER_ENCODING
    ensures AllAcceptable(NO_FLAGS, [l])
  {
    assert [l][1..] == [];
  }

  lemma CodingTold(c: Core, l: Line, d: Core)
    requires LowerCase(l.name) == TRANSFER_ENCODING && !Names(l.v, CHUNKED)
    requires AtHeader(c) && AllAcceptable(NO_FLAGS, [l]) && Leads(c, [l], d)
    ensures d.flags == NO_FLAGS && d.contentLength == ULLONG_MAX && d.kind == c.kind && d.meth == c.meth
  {
    hide Names;
    assert [l][1..] == [];
    assert Told(NO_FLAGS, ULLONG_MAX, [l]) == (NO_FLAGS, ULLONG_MAX);
  }

  /** A chunked coding under another one stays noticed; the standard says that such a response lasts until the close. */
  lemma ChunkedUnderGzip(cfg: Settings, c: Core, lines: seq<Line>)
    requires c.state.HeadersDone? && Reads(c, lines)
    requires !c.kind.Request? && !c.upgrade && !c.flags.skipBody && !Bodiless(c)
    requires Values(lines, TRANSFER_ENCODING) == ["chunked", "gzip"]
    ensures ByStandard(c, lines) == UntilClose && Chooses(Dispatch(cfg, c, LF), c, ChunkedBody)
  {
    hide Dispatch, Chooses, LengthTold, AllEmpty, EndsChunked, OneLength;
    UnderGzip();
    ChoosesPicked(cfg, c, ChunkedBody);
  }

  lemma UnderGzip()
    ensures var values := ["chunked", "gzip"]; Noticed(values) && !EndsChunked(values)
  {
    var values := ["chunked", "gzip"];
    assert values[0] == "chunked" && Names(values[0], CHUNKED);
    var v := "gzip";
    SkipTo(v, 4);
    assert v[..4] == v && v[4..] == [];
    assert Elements(v, [], false) == [v];
    TrimWord(v);
    assert Members([v]) == [v] + Members([]);
    assert Codings([v]) == [v] + Codings([]);
    assert values[1..] == [v];
    assert Codings(values) == Members(Elements(values[0], [], false)) + [v];
  }

  lemma TrimWord(w: seq<char>)
    requires w != [] && w[0] != ' ' && w[0] != '\t' && w[|w| - 1] != ' ' && w[|w| - 1] != '\t'
    ensures Trim(w) == w
  {
  }

  /** A length with a space in it is read all the same; the standard says that such a message is to be refused. */
  lemma SpacedLength(cfg: Settings, c: Core, lines: seq<Line>)
    requires c.state.HeadersDone? && Reads(c, lines) && !c.upgrade && !c.flags.skipBody && !Bodiless(c)
    requires Values(lines, TRANSFER_ENCODING) == [] && Values(lines, CONTENT_LENGTH) == ["4 2"]
    ensures ByStandard(c, lines) == Refused && Chooses(Dispatch(cfg, c, LF), c, Declared(42))
  {
    hide Dispatch, Chooses, Decimal, Values, Noticed;
    var v := "4 2";
    NothingNoticed();
    TrimWord(v);
    assert Values(lines, CONTENT_LENGTH)[0] == v && v[1] == ' ' && !IsLength(v);
    FortyTwo();
    ChoosesPicked(cfg, c, Declared(42));
  }

  lemma FortyTwo()
    ensures IsNumber("4 2") && Decimal(0, "4 2") == 42
  {
    var v := "4 2";
    assert v[..2] == "4 " && v[..2][..1] == "4" && v[..2][..1][..0] == [];
    assert Decimal(0, v[..2]) == Decimal(0, "4") == 4;
    assert Decimal(0, v) == Decimal(0, v[..2]) * 10 + 2;
  }
}

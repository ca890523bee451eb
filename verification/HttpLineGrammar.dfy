/**
 * Which lines there are: the chunk sizes and the request lines that the parser accepts are exactly those of a grammar,
 * and everything else stops it.
 */
module HttpLineGrammar {
  import opened Basics
  import opened HttpChars
  import opened HttpParserTypes
  import opened HttpParserStep
  import opened HttpParserFeed
  import opened HttpNumbers
  import opened HttpMethods
  import opened HttpFraming
  import opened HttpUrlGrammar
  import opened HttpStartLines
  import opened HttpTargets

  /** Whether feeding the bytes stops the parser before their end, or at it. */
  predicate Stops(cfg: Settings, c: Core, s: seq<char>) {
    Feed(cfg, c, s, 0).stopped
  }

  /** Feeding a and then b stops in a, or in b from where a has led. */
  lemma StopsSplit(cfg: Settings, c: Core, a: seq<char>, b: seq<char>)
    ensures Stops(cfg, c, a + b) <==> Stops(cfg, c, a) || Stops(cfg, Feed(cfg, c, a, 0).core, b)
  {
    hide Feed;
    Segmentation(cfg, c, a, b, 0);
  }

  lemma StopsFirst(cfg: Settings, c: Core, s: seq<char>)
    requires s != [] && !Dispatch(cfg, c, s[0]).act.Again?
    ensures var o := Dispatch(cfg, c, s[0]);
            Stops(cfg, c, s) <==> !o.act.Advance? || Stops(cfg, o.core, s[1..])
  {
    hide Dispatch;
    var o := Dispatch(cfg, c, s[0]);
    var r := FeedByte(cfg, c, s[0]);
    if o.act.Advance? {
      assert s == [s[0]] + s[1..];
      FeedAdvance(cfg, c, [s[0]], 0);
      NothingLeft(cfg, o.core, [s[0]]);
      StopsSplit(cfg, c, [s[0]], s[1..]);
    }
  }

  lemma StopsAtLast(cfg: Settings, c: Core, ch: char)
    requires !Dispatch(cfg, c, ch).act.Again?
    ensures Stops(cfg, c, [ch]) <==> !Dispatch(cfg, c, ch).act.Advance?
  {
    hide Dispatch;
    StopsFirst(cfg, c, [ch]);
    NothingLeft(cfg, Dispatch(cfg, c, ch).core, []);
  }

  /** How many of the first characters have the property. */
  function Leading(s: seq<char>, has: char -> bool): (k: nat)
    ensures k <= |s| && (forall i :: 0 <= i < k ==> has(s[i])) && (k < |s| ==> !has(s[k]))
  {
    if s == [] || !has(s[0]) then 0 else 1 + Leading(s[1..], has)
  }

  // ---------------------------------------------------------------- chunk sizes

  predicate SizeDigits(s: seq<char>) {
    s != [] && (forall i :: 0 <= i < |s| ==> IsHex(s[i])) && SizeFits(0, s)
  }

  /** Digits that fit, and what is set off from them. */
  predicate SizeText(a: seq<char>) {
    exists k :: 0 <= k <= |a| && SizeDigits(a[..k]) && IsExtension(a[k..])
  }

  lemma SizeSplit(a: seq<char>, k: nat)
    requires k == Leading(a, IsHex)
    ensures SizeText(a) <==> SizeDigits(a[..k]) && IsExtension(a[k..])
  {
    hide SizeFits;
    if j :| 0 <= j <= |a| && SizeDigits(a[..j]) && IsExtension(a[j..]) {
      if k < j {
        assert IsHex(a[..j][k]);
      } else if j < k {
        assert a[j..][0] == a[j];
      }
    }
  }

  lemma SizeBytes(cfg: Settings, c: Core, ch: char)
    ensures c.state.ChunkSizeStart? && !IsHex(ch) ==> Dispatch(cfg, c, ch).act.Fail?
    ensures c.state.ChunkSize? && !IsHex(ch) && ch != CR && ch != ';' && ch != ' ' ==> Dispatch(cfg, c, ch).act.Fail?
    ensures c.state.ChunkSizeAlmostDone? ==>
              if ch == LF then Dispatch(cfg, c, ch).act.Advance? else Dispatch(cfg, c, ch).act.Fail?
    ensures c.state.ChunkDataAlmostDone? && ch != CR ==> Dispatch(cfg, c, ch).act.Fail?
    ensures c.state.ChunkDataDone? && ch != LF ==> Dispatch(cfg, c, ch).act.Fail?
  {
  }

  lemma SizeLineEnds(cfg: Settings, c: Core, x: char)
    requires c.state.ChunkSize? || c.state.ChunkParameters?
    ensures Stops(cfg, c, [CR, x]) <==> x != LF
  {
    hide Dispatch, Feed;
    ChunkByte(cfg, c, CR);
    StopsFirst(cfg, c, [CR, x]);
    SizeBytes(cfg, c.(state := ChunkSizeAlmostDone), x);
    StopsAtLast(cfg, c.(state := ChunkSizeAlmostDone), x);
  }

  /** A size line is accepted exactly when it is a size that fits, perhaps with an extension, and its CR has an LF. */
  lemma SizeLineIff(cfg: Settings, c: Core, a: seq<char>, x: char)
    requires c.state.ChunkSizeStart? && CR !in a
    ensures Stops(cfg, c, a + [CR, x]) <==> !(SizeText(a) && x == LF)
  {
    hide Dispatch, Feed, SizeFits, SizeText;
    var k := Leading(a, IsHex);
    SizeSplit(a, k);
    var line := a + [CR, x];
    if k == 0 {
      SizeBytes(cfg, c, line[0]);
      StopsFirst(cfg, c, line);
    } else {
      var c1 := c.(state := ChunkSize, contentLength := Hexadecimal(0, a[..k]));
      WholeSize(cfg, c, a[..k]);
      assert line == a[..k] + (a[k..] + [CR, x]);
      StopsSplit(cfg, c, a[..k], a[k..] + [CR, x]);
      if SizeFits(0, a[..k]) {
        if a[k..] != [] && a[k] != ';' && a[k] != ' ' {
          assert (a[k..] + [CR, x])[0] == a[k];
          SizeBytes(cfg, c1, a[k]);
          StopsFirst(cfg, c1, a[k..] + [CR, x]);
        } else {
          FeedExtension(cfg, c1, a[k..], 0);
          StopsSplit(cfg, c1, a[k..], [CR, x]);
          SizeLineEnds(cfg, Feed(cfg, c1, a[k..], 0).core, x);
        }
      }
    }
  }

  /** The data of a chunk has to be followed by CRLF. */
  lemma ChunkEndIff(cfg: Settings, c: Core, x: char, y: char)
    requires c.state.ChunkDataAlmostDone?
    ensures Stops(cfg, c, [x, y]) <==> [x, y] != CRLF
  {
    hide Dispatch, Feed;
    SizeBytes(cfg, c, x);
    ChunkByte(cfg, c, x);
    StopsFirst(cfg, c, [x, y]);
    if x == CR {
      var c1 := c.(state := ChunkDataDone);
      SizeBytes(cfg, c1, y);
      ChunkByte(cfg, c1, y);
      StopsAtLast(cfg, c1, y);
    }
  }

  // ---------------------------------------------------------------- numbers of at most three digits

  predicate InNumber(s: State) {
    s.ReqMajor? || s.ReqMinor? || s.ResMajor? || s.ResMinor? || s.ResStatusCode?
  }

  /** The number that is being read. */
  function NumberOf(c: Core): nat {
    match c.state
    case ReqMajor | ResMajor => c.major
    case ReqMinor | ResMinor => c.minor
    case _ => c.status
  }

  function WithNumber(c: Core, n: nat): Core {
    match c.state
    case ReqMajor | ResMajor => c.(major := n)
    case ReqMinor | ResMinor => c.(minor := n)
    case _ => c.(status := n)
  }

  predicate AllDigits(d: seq<char>) {
    forall i :: 0 <= i < |d| ==> IsNum(d[i])
  }

  lemma NumberByte(cfg: Settings, c: Core, ch: char)
    requires InNumber(c.state) && IsNum(ch)
    ensures var n := NumberOf(c) * 10 + DigitValue(ch);
            if n > 999 then Dispatch(cfg, c, ch).act.Fail? else Dispatch(cfg, c, ch) == To(WithNumber(c, n), c.state)
  {
  }

  lemma {:induction false} DecimalGrows(n: nat, d: seq<char>)
    requires AllDigits(d)
    ensures n <= Decimal(n, d)
  {
    hide DigitValue;
    if d != [] {
      DecimalGrows(n, d[..|d| - 1]);
    }
  }

  lemma {:induction false} DecimalFirst(n: nat, d: seq<char>)
    requires AllDigits(d) && d != []
    ensures Decimal(n, d) == Decimal(n * 10 + DigitValue(d[0]), d[1..])
    decreases |d|
  {
    hide DigitValue;
    if |d| == 1 {
      assert d[..0] == [] && d[1..] == [];
    } else {
      assert d[..|d| - 1][1..] == d[1..][..|d| - 2];
      DecimalFirst(n, d[..|d| - 1]);
    }
  }

  /** Digits are read to their number, as long as that does not exceed 999. */
  lemma {:induction false} FeedNumber(cfg: Settings, c: Core, d: seq<char>)
    requires InNumber(c.state) && NumberOf(c) <= 999 && AllDigits(d)
    ensures if Decimal(NumberOf(c), d) <= 999
            then Feed(cfg, c, d, 0) == Fed(WithNumber(c, Decimal(NumberOf(c), d)), |d|, [], false)
            else Stops(cfg, c, d)
    decreases |d|
  {
    hide Dispatch, Feed, DigitValue, Decimal;
    if d == [] {
      NothingLeft(cfg, c, d);
      EmptyDecimal(NumberOf(c));
    } else {
      DecimalFirst(NumberOf(c), d);
      NumberByte(cfg, c, d[0]);
      StopsFirst(cfg, c, d);
      var n := NumberOf(c) * 10 + DigitValue(d[0]);
      if n <= 999 {
        var c1 := WithNumber(c, n);
        FeedNumber(cfg, c1, d[1..]);
        FeedRest(cfg, c, d, c1);
      } else {
        DecimalGrows(n, d[1..]);
      }
    }
  }

  lemma EmptyDecimal(n: nat)
    ensures Decimal(n, []) == n
  {
  }

  /** A byte that hands nothing over, and the rest. */
  lemma FeedRest(cfg: Settings, c: Core, s: seq<char>, c1: Core)
    requires s != []
    requires var o := Dispatch(cfg, c, s[0]); o.act.Advance? && o.core == c1 && o.data.None? && o.notes == []
    ensures Feed(cfg, c, s, 0) == var f := Feed(cfg, c1, s[1..], 0); f.(used := f.used + 1)
  {
    hide Dispatch, Feed;
    assert s == [s[0]] + s[1..];
    FeedQuiet(cfg, c, [s[0]], 0, c1);
    NothingLeft(cfg, c1, [s[0]]);
    Segmentation(cfg, c, [s[0]], s[1..], 0);
    var f := Feed(cfg, c1, s[1..], 0);
    assert [] + f.events == f.events;
  }

  /** A number of the version or the status: at least one digit, and at most 999. */
  predicate NumberText(d: seq<char>) {
    d != [] && AllDigits(d) && Decimal(0, d) <= 999
  }

  lemma FirstNumberByte(cfg: Settings, c: Core, ch: char)
    ensures c.state.ReqFirstMajor? ==>
              if IsNum(ch) && ch != '0' then Dispatch(cfg, c, ch) == To(c.(major := DigitValue(ch)), ReqMajor)
              else Dispatch(cfg, c, ch).act.Fail?
    ensures c.state.ResFirstMajor? ==>
              if IsNum(ch) then Dispatch(cfg, c, ch) == To(c.(major := DigitValue(ch)), ResMajor)
              else Dispatch(cfg, c, ch).act.Fail?
    ensures c.state.ReqFirstMinor? || c.state.ResFirstMinor? ==>
              if IsNum(ch) then Dispatch(cfg, c, ch) == To(c.(minor := DigitValue(ch)),
                                                           if c.state.ReqFirstMinor? then ReqMinor else ResMinor)
              else Dispatch(cfg, c, ch).act.Fail?
  {
  }

  lemma VersionByte(cfg: Settings, c: Core, ch: char)
    requires !IsNum(ch)
    ensures c.state.ReqMajor? || c.state.ResMajor? ==>
              if ch == '.' then
                Dispatch(cfg, c, ch) == To(c, if c.state.ReqMajor? then ReqFirstMinor else ResFirstMinor)
              else Dispatch(cfg, c, ch).act.Fail?
    ensures c.state.ResMinor? ==>
              if ch == ' ' then Dispatch(cfg, c, ch) == To(c, ResFirstStatusCode) else Dispatch(cfg, c, ch).act.Fail?
    ensures c.state.ReqMinor? ==>
              if ch == CR then Dispatch(cfg, c, ch) == To(c, ReqLineAlmostDone)
              else if ch == LF then Dispatch(cfg, c, ch) == To(c, HeaderFieldStart)
              else Dispatch(cfg, c, ch).act.Fail?
  {
  }

  lemma AlmostDoneByte(cfg: Settings, c: Core, ch: char)
    requires c.state.ReqLineAlmostDone? || c.state.ResLineAlmostDone?
    ensures if ch == LF then Dispatch(cfg, c, ch) == To(c, HeaderFieldStart) else Dispatch(cfg, c, ch).act.Fail?
  {
  }

  /** The state of a number whose first digit is read. */
  function InNumberOf(s: State): State {
    match s
    case ReqFirstMajor => ReqMajor
    case ResFirstMajor => ResMajor
    case ReqFirstMinor => ReqMinor
    case _ => ResMinor
  }

  lemma FirstNumber(cfg: Settings, c: Core, ch: char)
    requires c.state.ReqFirstMajor? || c.state.ResFirstMajor? || c.state.ReqFirstMinor? || c.state.ResFirstMinor?
    ensures if IsNum(ch) && (c.state.ReqFirstMajor? ==> ch != '0') then
              var s := InNumberOf(c.state);
              Dispatch(cfg, c, ch) == To(WithNumber(c.(state := s), DigitValue(ch)), s)
            else Dispatch(cfg, c, ch).act.Fail?
  {
    FirstNumberByte(cfg, c, ch);
  }

  lemma NumberSet(c: Core, m: nat, n: nat)
    requires InNumber(c.state)
    ensures var d := WithNumber(c, m);
            d.state == c.state && NumberOf(d) == m && WithNumber(d, n) == WithNumber(c, n)
  {
  }

  /** A whole number, at the place of one. */
  lemma WholeNumber(cfg: Settings, c: Core, d: seq<char>)
    requires c.state.ReqFirstMajor? || c.state.ResFirstMajor? || c.state.ReqFirstMinor? || c.state.ResFirstMinor?
    requires d != [] && AllDigits(d)
    ensures if NumberText(d) && (c.state.ReqFirstMajor? ==> d[0] != '0')
            then Feed(cfg, c, d, 0) ==
                 Fed(WithNumber(c.(state := InNumberOf(c.state)), Decimal(0, d)), |d|, [], false)
            else Stops(cfg, c, d)
  {
    hide Dispatch, Feed, Decimal, DigitValue, WithNumber, NumberOf, Stops;
    FirstNumber(cfg, c, d[0]);
    StopsFirst(cfg, c, d);
    if c.state.ReqFirstMajor? && d[0] == '0' {
      return;
    }
    var c0 := c.(state := InNumberOf(c.state));
    var c1 := WithNumber(c0, DigitValue(d[0]));
    NumberSet(c0, DigitValue(d[0]), Decimal(0, d));
    FeedNumber(cfg, c1, d[1..]);
    DecimalFirst(0, d);
    FeedRest(cfg, c, d, c1);
  }

  // ---------------------------------------------------------------- the parts of a request line, from the end

  predicate IsSpace(ch: char) {
    ch == ' '
  }

  predicate NotSpace(ch: char) {
    ch != ' '
  }

  predicate InTarget(ch: char) {
    ch != ' ' && ch != CR
  }

  /** A line, whose LF may have a CR before it. */
  predicate EndsLine(q: seq<char>) {
    q == [] || q == [CR]
  }

  predicate MinorEnds(r: seq<char>) {
    var k := Leading(r, IsNum); NumberText(r[..k]) && EndsLine(r[k..])
  }

  predicate VersionEnds(r: seq<char>) {
    var k := Leading(r, IsNum);
    0 < k < |r| && r[k] == '.' && NumberText(r[..k]) && r[0] != '0' && MinorEnds(r[k + 1..])
  }

  predicate WordEnds(r: seq<char>) {
    5 <= |r| && r[..5] == "HTTP/" && VersionEnds(r[5..])
  }

  predicate ProtocolEnds(r: seq<char>) {
    WordEnds(r[Leading(r, IsSpace)..])
  }

  /** The parser behind a part of the line, if it has not stopped: at the next header, with these two changed. */
  predicate Leaves(cfg: Settings, c: Core, r: seq<char>, major: nat, minor: nat) {
    Feed(cfg, c, r + [LF], 0).core == c.(state := HeaderFieldStart, major := major, minor := minor)
  }

  lemma CoreSplit(cfg: Settings, c: Core, a: seq<char>, b: seq<char>)
    requires !Stops(cfg, c, a)
    ensures Stops(cfg, c, a + b) <==> Stops(cfg, Feed(cfg, c, a, 0).core, b)
    ensures Feed(cfg, c, a + b, 0).core == Feed(cfg, Feed(cfg, c, a, 0).core, b, 0).core
  {
    hide Feed;
    Segmentation(cfg, c, a, b, 0);
  }

  /** A byte that does not stop, and the rest. */
  lemma CoreRest(cfg: Settings, c: Core, s: seq<char>)
    requires s != [] && Dispatch(cfg, c, s[0]).act.Advance?
    ensures var c1 := Dispatch(cfg, c, s[0]).core;
            (Stops(cfg, c, s) <==> Stops(cfg, c1, s[1..])) &&
            Feed(cfg, c, s, 0).core == Feed(cfg, c1, s[1..], 0).core
  {
    hide Dispatch, Feed;
    var c1 := Dispatch(cfg, c, s[0]).core;
    assert s == [s[0]] + s[1..];
    FeedAdvance(cfg, c, [s[0]], 0);
    NothingLeft(cfg, c1, [s[0]]);
    CoreSplit(cfg, c, [s[0]], s[1..]);
  }

  lemma LineEndsIff(cfg: Settings, c: Core, q: seq<char>)
    requires c.state.ReqMinor? && LF !in q && (q == [] || !IsNum(q[0]))
    ensures Stops(cfg, c, q + [LF]) <==> !EndsLine(q)
    ensures EndsLine(q) ==> Feed(cfg, c, q + [LF], 0).core == c.(state := HeaderFieldStart)
  {
    hide Dispatch, Feed;
    var line := q + [LF];
    VersionByte(cfg, c, line[0]);
    StopsFirst(cfg, c, line);
    if q == [] {
      CoreRest(cfg, c, line);
      NothingLeft(cfg, c.(state := HeaderFieldStart), []);
    } else if q[0] == CR {
      var c1 := c.(state := ReqLineAlmostDone);
      CoreRest(cfg, c, line);
      AlmostDoneByte(cfg, c1, line[1]);
      StopsFirst(cfg, c1, line[1..]);
      if |q| == 1 {
        CoreRest(cfg, c1, line[1..]);
        NothingLeft(cfg, c1.(state := HeaderFieldStart), []);
      }
    }
  }

  /** A number, and whatever else the line holds. */
  lemma NumberThen(cfg: Settings, c: Core, r: seq<char>)
    requires c.state.ReqFirstMajor? || c.state.ResFirstMajor? || c.state.ReqFirstMinor? || c.state.ResFirstMinor?
    requires LF !in r
    ensures var k := Leading(r, IsNum);
            if NumberText(r[..k]) && (c.state.ReqFirstMajor? ==> r[0] != '0') then
              var c1 := WithNumber(c.(state := InNumberOf(c.state)), Decimal(0, r[..k]));
              && (Stops(cfg, c, r + [LF]) <==> Stops(cfg, c1, r[k..] + [LF]))
              && Feed(cfg, c, r + [LF], 0).core == Feed(cfg, c1, r[k..] + [LF], 0).core
            else Stops(cfg, c, r + [LF])
  {
    hide Dispatch, Feed, Decimal;
    var k := Leading(r, IsNum);
    var line := r + [LF];
    if k == 0 {
      FirstNumberByte(cfg, c, line[0]);
      StopsFirst(cfg, c, line);
    } else {
      WholeNumber(cfg, c, r[..k]);
      assert line == r[..k] + (r[k..] + [LF]);
      StopsSplit(cfg, c, r[..k], r[k..] + [LF]);
      if !Stops(cfg, c, r[..k]) {
        CoreSplit(cfg, c, r[..k], r[k..] + [LF]);
      }
    }
  }

  lemma MinorIff(cfg: Settings, c: Core, r: seq<char>)
    requires c.state.ReqFirstMinor? && LF !in r
    ensures Stops(cfg, c, r + [LF]) <==> !MinorEnds(r)
    ensures MinorEnds(r) ==> Leaves(cfg, c, r, c.major, Decimal(0, r[..Leading(r, IsNum)]))
  {
    hide Dispatch, Feed, Decimal, Stops, Leading, NumberText;
    var k := Leading(r, IsNum);
    NumberThen(cfg, c, r);
    if NumberText(r[..k]) {
      LineEndsIff(cfg, c.(state := ReqMinor, minor := Decimal(0, r[..k])), r[k..]);
    }
  }

  lemma VersionIff(cfg: Settings, c: Core, r: seq<char>)
    requires c.state.ReqFirstMajor? && LF !in r
    ensures Stops(cfg, c, r + [LF]) <==> !VersionEnds(r)
    ensures VersionEnds(r) ==>
              var k := Leading(r, IsNum); var x := r[k + 1..];
              Leaves(cfg, c, r, Decimal(0, r[..k]), Decimal(0, x[..Leading(x, IsNum)]))
  {
    hide Dispatch, Feed, Decimal, Stops, Leading, MinorEnds;
    var k := Leading(r, IsNum);
    NumberThen(cfg, c, r);
    if NumberText(r[..k]) && r[0] != '0' {
      var c1 := c.(state := ReqMajor, major := Decimal(0, r[..k]));
      var rest := r[k..] + [LF];
      VersionByte(cfg, c1, rest[0]);
      StopsFirst(cfg, c1, rest);
      if k < |r| && r[k] == '.' {
        CoreRest(cfg, c1, rest);
        assert rest[1..] == r[k + 1..] + [LF];
        MinorIff(cfg, c1.(state := ReqFirstMinor), r[k + 1..]);
      }
    }
  }

  /** The word before a version, by the number of its letters read. */
  function WordState(i: nat): State
    requires i <= 5
  {
    if i == 0 then ReqHttpStart else if i == 1 then ReqHttpH else if i == 2 then ReqHttpHT
    else if i == 3 then ReqHttpHTT else if i == 4 then ReqHttpHTTP else ReqFirstMajor
  }

  lemma WordByte(cfg: Settings, c: Core, ch: char, i: nat)
    requires i < 5 && c.state == WordState(i) && (i == 0 ==> ch != ' ')
    ensures if ch == "HTTP/"[i] then Dispatch(cfg, c, ch) == To(c, WordState(i + 1))
            else Dispatch(cfg, c, ch).act.Fail?
  {
  }

  lemma WordGoesOn(r: seq<char>, i: nat)
    requires i < 5 && i <= |r| && r[..i] == "HTTP/"[..i]
    ensures i < |r| && r[i] == "HTTP/"[i] ==> r[..i + 1] == "HTTP/"[..i + 1]
    ensures i == |r| || r[i] != "HTTP/"[i] ==> |r| < 5 || r[..5] != "HTTP/"
  {
    if i < |r| && r[i] == "HTTP/"[i] {
      assert r[..i + 1] == r[..i] + [r[i]] && "HTTP/"[..i + 1] == "HTTP/"[..i] + ["HTTP/"[i]];
    } else if 5 <= |r| {
      assert r[..5][i] == r[i];
    }
  }

  lemma WordIff(cfg: Settings, c: Core, r: seq<char>, i: nat)
    requires i <= 5 && c.state == WordState(i) && LF !in r && i <= |r| && r[..i] == "HTTP/"[..i]
    requires i == 0 ==> r == [] || r[0] != ' '
    ensures Stops(cfg, c, r[i..] + [LF]) <==> !WordEnds(r)
    ensures WordEnds(r) ==>
              Feed(cfg, c, r[i..] + [LF], 0).core == Feed(cfg, c.(state := ReqFirstMajor), r[5..] + [LF], 0).core
    decreases 5 - i
  {
    hide Dispatch, Feed, VersionEnds, Stops, WordState;
    if i == 5 {
      assert WordState(5).ReqFirstMajor? by { WordOver(); }
      VersionIff(cfg, c, r[5..]);
      assert r[..5] == "HTTP/";
    } else {
      var line := r[i..] + [LF];
      WordByte(cfg, c, line[0], i);
      StopsFirst(cfg, c, line);
      WordGoesOn(r, i);
      if i < |r| && r[i] == "HTTP/"[i] {
        assert line[0] == r[i] && line[1..] == r[i + 1..] + [LF];
        CoreRest(cfg, c, line);
        WordIff(cfg, c.(state := WordState(i + 1)), r, i + 1);
      }
    }
  }

  lemma WordOver()
    ensures WordState(5) == ReqFirstMajor
  {
  }

  lemma {:induction false} FeedSpaces(cfg: Settings, c: Core, s: seq<char>, p: nat)
    requires (c.state.ReqHttpStart? || c.state.ReqSpacesBeforeUrl? || c.state.ResFirstStatusCode?) && p <= |s|
    requires forall i :: 0 <= i < |s| ==> s[i] == ' '
    ensures Feed(cfg, c, s, p) == Fed(c, |s|, [], false)
    decreases |s| - p
  {
    hide Dispatch, Feed;
    if p == |s| {
      NothingLeft(cfg, c, s);
    } else {
      SpaceByte(cfg, c);
      FeedQuiet(cfg, c, s, p, c);
      FeedSpaces(cfg, c, s, p + 1);
    }
  }

  lemma SpaceByte(cfg: Settings, c: Core)
    requires c.state.ReqHttpStart? || c.state.ReqSpacesBeforeUrl? || c.state.ResFirstStatusCode?
    ensures Dispatch(cfg, c, ' ') == To(c, c.state)
  {
  }

  lemma ProtocolIff(cfg: Settings, c: Core, r: seq<char>)
    requires c.state.ReqHttpStart? && LF !in r
    ensures Stops(cfg, c, r + [LF]) <==> !ProtocolEnds(r)
    ensures ProtocolEnds(r) ==>
              var x := r[Leading(r, IsSpace)..];
              Feed(cfg, c, r + [LF], 0).core == Feed(cfg, c.(state := ReqFirstMajor), x[5..] + [LF], 0).core
  {
    hide Dispatch, Feed, WordEnds;
    var k := Leading(r, IsSpace);
    FeedSpaces(cfg, c, r[..k], 0);
    assert r + [LF] == r[..k] + (r[k..] + [LF]);
    CoreSplit(cfg, c, r[..k], r[k..] + [LF]);
    var x := r[k..];
    assert x[0..] == x;
    WordIff(cfg, c, x, 0);
  }

  // ---------------------------------------------------------------- request lines

  /** The numbers of a version. */
  function VersionOf(r: seq<char>): (nat, nat)
    requires VersionEnds(r)
  {
    var k := Leading(r, IsNum);
    var x := r[k + 1..];
    (Decimal(0, r[..k]), Decimal(0, x[..Leading(x, IsNum)]))
  }

  /** What follows a target: the end of the line, which makes it one of version 0.9, or a version. */
  predicate TargetFollows(q: seq<char>) {
    EndsLine(q) || (q[0] == ' ' && ProtocolEnds(q[1..]))
  }

  function FollowingVersion(q: seq<char>): (nat, nat)
    requires TargetFollows(q)
  {
    if EndsLine(q) then (0, 9)
    else
      var x := q[1..][Leading(q[1..], IsSpace)..];
      VersionOf(x[5..])
  }

  lemma TargetByte(cfg: Settings, c: Core, ch: char)
    requires IsUrlState(c.state) || c.state.ReqSpacesBeforeUrl?
    requires InTarget(ch) && ch != LF
    ensures var s := ParseUrlChar(UrlState(c), ch);
            if s.Dead? then Dispatch(cfg, c, ch).act.Fail? else Dispatch(cfg, c, ch) == Keep(c, s, Url)
  {
  }

  lemma UrlStates(c: Core, ch: char)
    requires IsUrlState(c.state) || c.state.ReqSpacesBeforeUrl?
    ensures !UrlState(c).Dead?
    ensures var s := ParseUrlChar(UrlState(c), ch); !s.Dead? ==> UrlState(c.(state := s)) == s
  {
  }

  /** Where the automaton dies, the parser stops. */
  lemma {:induction false} TargetDies(cfg: Settings, c: Core, url: seq<char>)
    requires IsUrlState(c.state) || c.state.ReqSpacesBeforeUrl?
    requires (forall i :: 0 <= i < |url| ==> InTarget(url[i]) && url[i] != LF) && UrlRun(UrlState(c), url).Dead?
    ensures Stops(cfg, c, url)
    decreases |url|
  {
    hide Dispatch, Feed, Stops, ParseUrlChar, IsUrlState;
    UrlStates(c, NUL);
    if url != [] {
      var s := ParseUrlChar(UrlState(c), url[0]);
      TargetByte(cfg, c, url[0]);
      StopsFirst(cfg, c, url);
      UrlStates(c, url[0]);
      if !s.Dead? {
        TargetDies(cfg, c.(state := s), url[1..]);
      }
    }
  }

  lemma TargetEndByte(cfg: Settings, c: Core, ch: char)
    requires IsUrlState(c.state) && (ch == ' ' || ch == CR || ch == LF)
    ensures InSchema(c.state) ==> Dispatch(cfg, c, ch).act.Fail?
    ensures !InSchema(c.state) ==>
              var o := Dispatch(cfg, c, ch);
              && o.act.Advance?
              && o.core == if ch == ' ' then c.(state := ReqHttpStart)
                           else c.(major := 0, minor := 9,
                                   state := if ch == CR then ReqLineAlmostDone else HeaderFieldStart)
  {
  }

  lemma NoTargetByte(cfg: Settings, c: Core, ch: char)
    requires c.state.ReqSpacesBeforeUrl? && (ch == CR || ch == LF)
    ensures Dispatch(cfg, c, ch).act.Fail?
  {
  }

  /** The line is at its end, but for its LF. */
  lemma AlmostDoneIff(cfg: Settings, c: Core, q: seq<char>)
    requires (c.state.ReqLineAlmostDone? || c.state.ResLineAlmostDone?) && LF !in q
    ensures Stops(cfg, c, q + [LF]) <==> q != []
    ensures q == [] ==> Feed(cfg, c, q + [LF], 0).core == c.(state := HeaderFieldStart)
  {
    hide Dispatch, Feed;
    var line := q + [LF];
    AlmostDoneByte(cfg, c, line[0]);
    StopsFirst(cfg, c, line);
    if q == [] {
      CoreRest(cfg, c, line);
      NothingLeft(cfg, c.(state := HeaderFieldStart), []);
    }
  }

  lemma FollowIff(cfg: Settings, c: Core, q: seq<char>)
    requires IsUrlState(c.state) && !InSchema(c.state) && LF !in q && (q == [] || q[0] == ' ' || q[0] == CR)
    ensures Stops(cfg, c, q + [LF]) <==> !TargetFollows(q)
    ensures TargetFollows(q) ==>
              var v := FollowingVersion(q);
              Feed(cfg, c, q + [LF], 0).core == c.(state := HeaderFieldStart, major := v.0, minor := v.1)
  {
    hide Dispatch, Feed, Stops, ProtocolEnds, VersionOf, IsUrlState;
    var line := q + [LF];
    TargetEndByte(cfg, c, line[0]);
    CoreRest(cfg, c, line);
    var c1 := Dispatch(cfg, c, line[0]).core;
    if q == [] {
      NothingLeft(cfg, c1, []);
      NoStop(cfg, c1);
    } else {
      assert line[1..] == q[1..] + [LF];
      if q[0] == CR {
        AlmostDoneIff(cfg, c1, q[1..]);
      } else {
        ProtocolIff(cfg, c1, q[1..]);
        if ProtocolEnds(q[1..]) {
          ProtocolVersion(cfg, c1, q[1..]);
        }
      }
    }
  }

  lemma NoStop(cfg: Settings, c: Core)
    ensures !Stops(cfg, c, [])
  {
  }

  lemma ProtocolVersion(cfg: Settings, c: Core, r: seq<char>)
    requires c.state.ReqHttpStart? && LF !in r && ProtocolEnds(r)
    ensures var x := r[Leading(r, IsSpace)..];
            5 <= |x| && VersionEnds(x[5..]) &&
            var v := VersionOf(x[5..]);
            Feed(cfg, c, r + [LF], 0).core == c.(state := HeaderFieldStart, major := v.0, minor := v.1)
  {
    hide Dispatch, Feed, Stops, VersionEnds;
    ProtocolIff(cfg, c, r);
    var x := r[Leading(r, IsSpace)..];
    VersionIff(cfg, c.(state := ReqFirstMajor), x[5..]);
    VersionLeaves(cfg, c.(state := ReqFirstMajor), x[5..]);
  }

  lemma VersionLeaves(cfg: Settings, c: Core, r: seq<char>)
    requires c.state.ReqFirstMajor? && LF !in r && VersionEnds(r)
    ensures Leaves(cfg, c, r, VersionOf(r).0, VersionOf(r).1)
  {
    hide Dispatch, Feed, Stops;
    VersionIff(cfg, c, r);
  }

  /** What follows a method: spaces, a target, and what follows it. */
  predicate TargetEnds(isConnect: bool, r: seq<char>) {
    var x := r[Leading(r, IsSpace)..];
    var t := Leading(x, InTarget);
    IsTarget(isConnect, x[..t]) && TargetFollows(x[t..])
  }

  function TargetVersion(isConnect: bool, r: seq<char>): (nat, nat)
    requires TargetEnds(isConnect, r)
  {
    var x := r[Leading(r, IsSpace)..];
    FollowingVersion(x[Leading(x, InTarget)..])
  }

  lemma RunToUrl(cfg: Settings, c: Core, x: seq<char>)
    requires c.state.ReqSpacesBeforeUrl? && x != [] && (forall i :: 0 <= i < |x| ==> InTarget(x[i]) && x[i] != LF)
    ensures var s := UrlRun(UrlState(c), x);
            if s.Dead? then Stops(cfg, c, x)
            else !Stops(cfg, c, x) && Feed(cfg, c, x, 0).core == c.(state := s) && IsUrlState(s)
  {
    hide Dispatch, Feed, IsUrlState;
    assert x[0..] == x;
    if UrlRun(UrlState(c), x).Dead? {
      TargetDies(cfg, c, x);
    } else {
      FeedTarget(cfg, c, x, 0);
    }
  }

  /** What begins with no space: a target, and what follows it. */
  lemma TargetHereIff(cfg: Settings, c: Core, x: seq<char>)
    requires c.state.ReqSpacesBeforeUrl? && LF !in x && (x == [] || x[0] != ' ')
    ensures var t := Leading(x, InTarget);
            var whole := IsTarget(c.meth.CONNECT?, x[..t]) && TargetFollows(x[t..]);
            && (Stops(cfg, c, x + [LF]) <==> !whole)
            && (whole ==> var v := FollowingVersion(x[t..]);
                Feed(cfg, c, x + [LF], 0).core == c.(state := HeaderFieldStart, major := v.0, minor := v.1))
  {
    hide Dispatch, Feed, Stops, TargetFollows, FollowingVersion, IsUrlState, UrlRun;
    var t := Leading(x, InTarget);
    if t == 0 {
      NoTargetByte(cfg, c, (x + [LF])[0]);
      StopsFirst(cfg, c, x + [LF]);
    } else {
      RunToUrl(cfg, c, x[..t]);
      assert x + [LF] == x[..t] + (x[t..] + [LF]);
      StopsSplit(cfg, c, x[..t], x[t..] + [LF]);
      var s := UrlRun(UrlState(c), x[..t]);
      if !s.Dead? {
        CoreSplit(cfg, c, x[..t], x[t..] + [LF]);
        if InSchema(s) {
          TargetEndByte(cfg, c.(state := s), (x[t..] + [LF])[0]);
          StopsFirst(cfg, c.(state := s), x[t..] + [LF]);
        } else {
          FollowIff(cfg, c.(state := s), x[t..]);
        }
      }
    }
  }

  lemma TargetLineIff(cfg: Settings, c: Core, r: seq<char>)
    requires c.state.ReqSpacesBeforeUrl? && LF !in r
    ensures Stops(cfg, c, r + [LF]) <==> !TargetEnds(c.meth.CONNECT?, r)
    ensures TargetEnds(c.meth.CONNECT?, r) ==>
              var v := TargetVersion(c.meth.CONNECT?, r);
              Feed(cfg, c, r + [LF], 0).core == c.(state := HeaderFieldStart, major := v.0, minor := v.1)
  {
    hide Dispatch, Feed, Stops, TargetFollows, FollowingVersion, IsTarget;
    var k := Leading(r, IsSpace);
    FeedSpaces(cfg, c, r[..k], 0);
    assert r + [LF] == r[..k] + (r[k..] + [LF]);
    NotStopped(cfg, c, r[..k]);
    CoreSplit(cfg, c, r[..k], r[k..] + [LF]);
    TargetHereIff(cfg, c, r[k..]);
  }

  lemma NotStopped(cfg: Settings, c: Core, s: seq<char>)
    requires Feed(cfg, c, s, 0) == Fed(c, |s|, [], false)
    ensures !Stops(cfg, c, s)
  {
  }

  // ---------------------------------------------------------------- the method, and the line as a whole

  predicate IsMethodLetter(ch: char) {
    'A' <= ch <= 'Z' || ch == '-'
  }

  lemma MethodLetters(m: Method)
    ensures 2 < |MethodString(m)| && forall i :: 0 <= i < |MethodString(m)| ==> IsMethodLetter(MethodString(m)[i])
  {
  }

  /** Different methods have different names. */
  lemma MethodOf(m: Method, n: Method)
    requires MethodString(m) == MethodString(n)
    ensures m == n
  {
    assert MethodString(m)[1] == MethodString(n)[1] && MethodString(m)[2] == MethodString(n)[2];
  }

  lemma MethodStays(cfg: Settings, c: Core, ch: char)
    requires c.state.ReqMethod? && ch != ' '
    ensures var o := Dispatch(cfg, c, ch);
            o.act.Fail? || (o.act.Advance? && o.core.state.ReqMethod? && ch != LF)
  {
    MethodLetters(c.meth);
  }

  /** A line without a space behind its method. */
  lemma {:induction false} MethodAlone(cfg: Settings, c: Core, w: seq<char>)
    requires c.state.ReqMethod? && ' ' !in w
    ensures Stops(cfg, c, w + [LF])
    decreases |w|
  {
    hide Dispatch, Feed, Stops;
    var line := w + [LF];
    MethodStays(cfg, c, line[0]);
    StopsFirst(cfg, c, line);
    if w != [] {
      assert line[1..] == w[1..] + [LF];
      var o := Dispatch(cfg, c, line[0]);
      if o.act.Advance? {
        MethodAlone(cfg, o.core, w[1..]);
      }
    }
  }

  lemma LineBegins(cfg: Settings, c: Core, ch: char)
    requires c.state.StartReq? && c.errno.Ok? && ch != CR && ch != LF
    ensures var o := Dispatch(cfg, c, ch); o.act.Fail? || (o.act.Advance? && o.core.state.ReqMethod?)
    ensures ch == ' ' ==> Dispatch(cfg, c, ch).act.Fail?
  {
  }

  /** Line ends before a request are skipped. */
  lemma LineEndsSkipped(cfg: Settings, c: Core, ch: char)
    requires c.state.StartReq? && c.errno.Ok? && (ch == CR || ch == LF)
    ensures Feed(cfg, c, [ch], 0) == Fed(c, 1, [], false)
  {
    FeedAdvance(cfg, c, [ch], 0);
    NothingLeft(cfg, c, [ch]);
  }

  /** A whole request line, but for its LF: the name of a method, and what follows it. */
  predicate RequestEnds(b: seq<char>) {
    var n := Leading(b, NotSpace);
    n < |b| && exists m: Method :: b[..n] == MethodString(m) && TargetEnds(m.CONNECT?, b[n + 1..])
  }

  lemma RequestIff(cfg: Settings, c: Core, b: seq<char>)
    requires c.state.StartReq? && c.errno.Ok? && b != [] && b[0] != CR && LF !in b
    ensures Stops(cfg, c, b + [LF]) <==> !RequestEnds(b)
    ensures RequestEnds(b) ==>
              var n := Leading(b, NotSpace); var d := Feed(cfg, c, b + [LF], 0).core;
              && b[..n] == MethodString(d.meth) && TargetEnds(d.meth.CONNECT?, b[n + 1..])
              && var v := TargetVersion(d.meth.CONNECT?, b[n + 1..]);
                 d == Fresh(c).(state := HeaderFieldStart, meth := d.meth, major := v.0, minor := v.1, index := n + 1)
  {
    hide Dispatch, Feed, Stops, TargetEnds, TargetVersion, MethodString;
    var n := Leading(b, NotSpace);
    var line := b + [LF];
    if n == |b| {
      LineBegins(cfg, c, b[0]);
      StopsFirst(cfg, c, line);
      assert line[1..] == b[1..] + [LF];
      var o := Dispatch(cfg, c, b[0]);
      if o.act.Advance? {
        MethodAlone(cfg, o.core, b[1..]);
      }
    } else if n == 0 {
      LineBegins(cfg, c, ' ');
      StopsFirst(cfg, c, line);
      if m: Method :| b[..n] == MethodString(m) {
        MethodLetters(m);
      }
    } else {
      MethodLineIff(cfg, c, b, n);
    }
  }

  lemma MethodLineIff(cfg: Settings, c: Core, b: seq<char>, n: nat)
    requires c.state.StartReq? && c.errno.Ok? && LF !in b && 0 < n < |b| && n == Leading(b, NotSpace) && b[0] != CR
    ensures Stops(cfg, c, b + [LF]) <==> !RequestEnds(b)
    ensures RequestEnds(b) ==>
              var d := Feed(cfg, c, b + [LF], 0).core;
              && b[..n] == MethodString(d.meth) && TargetEnds(d.meth.CONNECT?, b[n + 1..])
              && var v := TargetVersion(d.meth.CONNECT?, b[n + 1..]);
                 d == Fresh(c).(state := HeaderFieldStart, meth := d.meth, major := v.0, minor := v.1, index := n + 1)
  {
    hide Dispatch, Feed, Stops, TargetEnds, TargetVersion, MethodString;
    var w, r := b[..n], b[n + 1..];
    assert b + [LF] == (w + " ") + (r + [LF]);
    MethodRecognised(cfg, c, w);
    StopsSplit(cfg, c, w + " ", r + [LF]);
    StopsAs(cfg, c, w + " ");
    if m: Method :| w == MethodString(m) {
      var c1 := Fresh(c).(state := ReqSpacesBeforeUrl, meth := m, index := n + 1);
      FeedMethod(cfg, c, m);
      CoreSplit(cfg, c, w + " ", r + [LF]);
      TargetLineIff(cfg, c1, r);
      forall k: Method | w == MethodString(k)
        ensures k == m
      {
        MethodOf(k, m);
      }
    }
  }

  lemma StopsAs(cfg: Settings, c: Core, s: seq<char>)
    ensures Stops(cfg, c, s) <==> Feed(cfg, c, s, 0).stopped
  {
  }

  // ---------------------------------------------------------------- the grammar of request lines

  function Spaces(n: nat): (s: seq<char>)
    ensures |s| == n && forall i :: 0 <= i < n ==> s[i] == ' '
  {
    seq(n, _ => ' ')
  }

  function Cr(cr: bool): seq<char> {
    if cr then [CR] else []
  }

  /** A version, behind at least one space. */
  datatype Protocol = Protocol(gap: nat, major: seq<char>, minor: seq<char>) {
    predicate Fits() {
      NumberText(major) && NumberText(minor) && major[0] != '0'
    }

    function Text(): seq<char> {
      Spaces(gap) + ("HTTP/" + (major + ("." + minor)))
    }
  }

  /** A request line; without a version it is one of version 0.9. */
  datatype RequestText =
    RequestText(meth: Method, gap: nat, target: seq<char>, protocol: Option<Protocol>, cr: bool)
  {
    ghost predicate Fits() {
      TargetText(meth.CONNECT?, target) && (protocol.Some? ==> protocol.value.Fits())
    }

    /** The line up to its LF. */
    function Text(): seq<char> {
      MethodString(meth) + (" " + (Spaces(gap) + (target + Behind())))
    }

    function Behind(): seq<char> {
      (if protocol.Some? then " " + protocol.value.Text() else []) + Cr(cr)
    }

    function Version(): (nat, nat)
      requires protocol.Some? ==> protocol.value.Fits()
    {
      if protocol.Some? then (Decimal(0, protocol.value.major), Decimal(0, protocol.value.minor)) else (0, 9)
    }
  }

  lemma LeadingIs(a: seq<char>, b: seq<char>, has: char -> bool)
    requires (forall i :: 0 <= i < |a| ==> has(a[i])) && (b == [] || !has(b[0]))
    ensures Leading(a + b, has) == |a| && (a + b)[..|a|] == a && (a + b)[|a|..] == b
  {
    var s := a + b;
    assert s[..|a|] == a && s[|a|..] == b;
    assert forall i :: 0 <= i < |a| ==> s[i] == a[i];
    assert b != [] ==> s[|a|] == b[0];
  }

  // from a text to its parts

  lemma VersionParts(major: seq<char>, minor: seq<char>, cr: bool)
    requires NumberText(major) && NumberText(minor) && major[0] != '0'
    ensures var r := major + ("." + minor) + Cr(cr);
            VersionEnds(r) && VersionOf(r) == (Decimal(0, major), Decimal(0, minor))
  {
    hide Decimal;
    var x := minor + Cr(cr);
    var r := major + ("." + minor) + Cr(cr);
    assert r == major + ("." + x);
    LeadingIs(major, "." + x, IsNum);
    LeadingIs(minor, Cr(cr), IsNum);
    assert r[|major| + 1..] == x;
  }

  lemma ProtocolParts(p: Protocol, cr: bool)
    requires p.Fits()
    ensures var q := " " + p.Text() + Cr(cr);
            TargetFollows(q) && FollowingVersion(q) == (Decimal(0, p.major), Decimal(0, p.minor))
  {
    hide Decimal, VersionEnds, VersionOf, NumberText;
    var v := p.major + ("." + p.minor) + Cr(cr);
    var q := " " + p.Text() + Cr(cr);
    assert q[1..] == Spaces(p.gap) + ("HTTP/" + v);
    LeadingIs(Spaces(p.gap), "HTTP/" + v, IsSpace);
    VersionParts(p.major, p.minor, cr);
    assert ("HTTP/" + v)[5..] == v;
  }

  lemma BehindParts(t: RequestText)
    requires t.Fits()
    ensures TargetFollows(t.Behind()) && FollowingVersion(t.Behind()) == t.Version()
    ensures t.Behind() == [] || t.Behind()[0] == ' ' || t.Behind()[0] == CR
  {
    hide Decimal, TargetFollows, FollowingVersion, Protocol.Fits, Protocol.Text, TargetText;
    if t.protocol.Some? {
      ProtocolParts(t.protocol.value, t.cr);
    } else {
      assert [] + Cr(t.cr) == Cr(t.cr);
      NothingFollows(t.cr);
    }
  }

  lemma NothingFollows(cr: bool)
    ensures TargetFollows(Cr(cr)) && FollowingVersion(Cr(cr)) == (0, 9)
  {
  }

  lemma TailLetters(url: seq<char>, k: nat)
    requires k < |url| && (IsTailChar(url[k]) || IsUserInfoChar(url[k]) || url[k] == '[' || url[k] == ']' ||
             url[k] == '@' || IsAlpha(url[k]) || url[k] == ':' || url[k] == '/' || url[k] == '*')
    ensures url[k] != ' ' && url[k] != CR && url[k] != LF
  {
  }

  /** A target holds no space and no line end. */
  lemma TargetLetters(isConnect: bool, url: seq<char>)
    requires TargetText(isConnect, url)
    ensures url != [] && forall k :: 0 <= k < |url| ==> InTarget(url[k]) && url[k] != LF
  {
    forall k | 0 <= k < |url|
      ensures InTarget(url[k]) && url[k] != LF
    {
      TailLetters(url, k);
    }
  }

  lemma TextParts(t: RequestText)
    requires t.Fits()
    ensures var b := t.Text(); var n := |MethodString(t.meth)|;
            && n == Leading(b, NotSpace) < |b| && b[..n] == MethodString(t.meth)
            && TargetEnds(t.meth.CONNECT?, b[n + 1..]) && TargetVersion(t.meth.CONNECT?, b[n + 1..]) == t.Version()
  {
    hide TargetFollows, FollowingVersion, TargetText, IsTarget, RequestText.Behind, RequestText.Version, MethodString;
    var m := MethodString(t.meth);
    var x := t.target + t.Behind();
    var r := Spaces(t.gap) + x;
    MethodLetters(t.meth);
    LeadingIs(m, " " + r, NotSpace);
    TargetLetters(t.meth.CONNECT?, t.target);
    BehindParts(t);
    LeadingIs(Spaces(t.gap), x, IsSpace);
    LeadingIs(t.target, t.Behind(), InTarget);
    TargetIff(t.meth.CONNECT?, t.target);
    assert t.Text() == m + (" " + r);
    assert t.Text()[|m| + 1..] == r;
  }

  // from the parts to a text

  lemma SpacesAre(s: seq<char>)
    requires forall i :: 0 <= i < |s| ==> s[i] == ' '
    ensures s == Spaces(|s|)
  {
  }

  /** The two numbers of a version and the line end. */
  lemma VersionSplit(v: seq<char>) returns (major: seq<char>, minor: seq<char>, cr: bool)
    requires VersionEnds(v)
    ensures NumberText(major) && NumberText(minor) && major[0] != '0' && v == major + ("." + minor) + Cr(cr)
  {
    hide Decimal;
    var k := Leading(v, IsNum);
    var x := v[k + 1..];
    var e := Leading(x, IsNum);
    major, minor, cr := v[..k], x[..e], x[e..] == [CR];
    assert x == x[..e] + Cr(cr);
    assert v == v[..k] + ("." + x);
    assert "." + (minor + Cr(cr)) == ("." + minor) + Cr(cr);
  }

  lemma ProtocolSplit(r: seq<char>) returns (p: Protocol, cr: bool)
    requires ProtocolEnds(r)
    ensures p.Fits() && r == p.Text() + Cr(cr)
  {
    hide VersionEnds, NumberText;
    var g := Leading(r, IsSpace);
    var x := r[g..];
    var major, minor;
    major, minor, cr := VersionSplit(x[5..]);
    p := Protocol(g, major, minor);
    SpacesAre(r[..g]);
    assert x == "HTTP/" + x[5..];
    assert r == Spaces(g) + x;
    assert p.Text() + Cr(cr) == Spaces(g) + ("HTTP/" + (major + ("." + minor) + Cr(cr)));
  }

  /** The protocol and the line end that follow a target. */
  lemma FollowSplit(q: seq<char>) returns (p: Option<Protocol>, cr: bool)
    requires TargetFollows(q)
    ensures p.Some? ==> p.value.Fits()
    ensures q == (if p.Some? then " " + p.value.Text() else []) + Cr(cr)
  {
    hide ProtocolEnds, Protocol.Fits, Protocol.Text;
    if EndsLine(q) {
      p, cr := None, q == [CR];
    } else {
      var v;
      v, cr := ProtocolSplit(q[1..]);
      p := Some(v);
      assert q == " " + q[1..];
      assert " " + (v.Text() + Cr(cr)) == " " + v.Text() + Cr(cr);
    }
  }

  lemma TargetSplit(m: Method, r: seq<char>) returns (t: RequestText)
    requires TargetEnds(m.CONNECT?, r)
    ensures t.Fits() && t.meth == m && r == Spaces(t.gap) + (t.target + t.Behind())
  {
    hide TargetFollows, TargetText, IsTarget, Protocol.Fits, Protocol.Text, Leading, Spaces, Cr;
    var g := Leading(r, IsSpace);
    var x := r[g..];
    var k := Leading(x, InTarget);
    SpacesAre(r[..g]);
    TargetIff(m.CONNECT?, x[..k]);
    var p, cr := FollowSplit(x[k..]);
    t := RequestText(m, g, x[..k], p, cr);
    assert x == x[..k] + t.Behind();
    assert r == Spaces(g) + x;
  }

  lemma RequestSplit(b: seq<char>, m: Method) returns (t: RequestText)
    requires var n := Leading(b, NotSpace);
             n < |b| && b[..n] == MethodString(m) && TargetEnds(m.CONNECT?, b[n + 1..])
    ensures t.Fits() && t.Text() == b
  {
    hide TargetEnds, TargetText, RequestText.Behind, RequestText.Fits, MethodString;
    var n := Leading(b, NotSpace);
    t := TargetSplit(m, b[n + 1..]);
    assert b == b[..n] + (" " + b[n + 1..]);
  }

  /** A request line is accepted if and only if it is one of the grammar. */
  lemma RequestLineIff(cfg: Settings, c: Core, b: seq<char>)
    requires c.state.StartReq? && c.errno.Ok? && b != [] && b[0] != CR && LF !in b
    ensures Stops(cfg, c, b + [LF]) <==> !exists t: RequestText :: t.Fits() && t.Text() == b
  {
    hide Feed, Stops, TargetEnds, MethodString, RequestText.Fits, RequestText.Text, Leading;
    RequestIff(cfg, c, b);
    if RequestEnds(b) {
      var m: Method :| b[..Leading(b, NotSpace)] == MethodString(m) &&
        TargetEnds(m.CONNECT?, b[Leading(b, NotSpace) + 1..]);
      var t := RequestSplit(b, m);
    }
    forall t: RequestText | t.Fits() && t.Text() == b
      ensures RequestEnds(b)
    {
      TextParts(t);
    }
  }

  /** A request line of the grammar leaves its method and its version in the parser, which is at the first header. */
  lemma RequestLineLeaves(cfg: Settings, c: Core, t: RequestText)
    requires c.state.StartReq? && c.errno.Ok? && t.Fits()
    ensures LF !in t.Text() && !Stops(cfg, c, t.Text() + [LF])
    ensures var d := Feed(cfg, c, t.Text() + [LF], 0).core; var v := t.Version();
            d == Fresh(c).(state := HeaderFieldStart, meth := t.meth, major := v.0, minor := v.1, index := d.index)
  {
    hide Feed, Stops, TargetEnds, TargetVersion, MethodString, RequestText.Text, RequestText.Version, Leading;
    var b := t.Text();
    TextParts(t);
    TextLetters(t);
    RequestIff(cfg, c, b);
    MethodOf(t.meth, Feed(cfg, c, b + [LF], 0).core.meth);
  }

  lemma TextLetters(t: RequestText)
    requires t.Fits()
    ensures t.Text() != [] && t.Text()[0] != CR && LF !in t.Text()
  {
    hide TargetText, MethodString, NumberText;
    MethodLetters(t.meth);
    TargetLetters(t.meth.CONNECT?, t.target);
    BehindLetters(t);
    assert t.Text()[0] == MethodString(t.meth)[0];
  }

  lemma BehindLetters(t: RequestText)
    requires t.Fits()
    ensures LF !in t.Behind()
  {
    hide TargetText;
    if t.protocol.Some? {
      var p := t.protocol.value;
      assert LF !in p.major && LF !in p.minor;
    }
  }

  // ---------------------------------------------------------------- a parser for either kind of message

  lemma EitherByte(cfg: Settings, c: Core, ch: char)
    requires c.state.StartReqOrRes? && c.errno.Ok?
    ensures var o := Dispatch(cfg, c, ch);
            if ch == CR || ch == LF then o == To(c, StartReqOrRes)
            else if ch == 'H' then o == Note(Fresh(c), ResOrRespH, MessageBegin)
            else o == Retry(Fresh(c).(kind := Request), StartReq)
  {
  }

  lemma AfterHByte(cfg: Settings, c: Core, ch: char)
    requires c.state.ResOrRespH?
    ensures var o := Dispatch(cfg, c, ch);
            if ch == 'T' then o == To(c.(kind := Response), ResHT)
            else if ch == 'E' then o == To(c.(kind := Request, meth := HEAD, index := 2), ReqMethod)
            else o.act.Fail?
  {
  }

  lemma RequestHBytes(cfg: Settings, c: Core)
    requires c.errno.Ok?
    ensures c.state.StartReq? ==>
              Dispatch(cfg, c, 'H') == Note(Fresh(c).(meth := HEAD, index := 1), ReqMethod, MessageBegin)
    ensures c.state.ReqMethod? && c.meth.HEAD? && c.index == 1 ==>
              Dispatch(cfg, c, 'E') == To(c.(index := 2), ReqMethod)
    ensures c.state.StartRes? ==> Dispatch(cfg, c, 'H') == Note(Fresh(c), ResH, MessageBegin)
    ensures c.state.ResH? ==> Dispatch(cfg, c, 'T') == To(c, ResHT)
  {
  }

  /** Two bytes that only begin a message. */
  lemma TwoBytes(cfg: Settings, c: Core, s: seq<char>, c1: Core, c2: Core)
    requires |s| >= 2 && Dispatch(cfg, c, s[0]) == Note(c1, c1.state, MessageBegin)
    requires Dispatch(cfg, c1, s[1]) == To(c2, c2.state)
    ensures Feed(cfg, c, s, 0) == HttpParserFeed.After([MessageBegin], Feed(cfg, c2, s, 2))
  {
    hide Dispatch, Feed, Slips, SlipsAt;
    FeedAdvance(cfg, c, s, 0);
    FeedAdvance(cfg, c1, s, 1);
    AfterNothing(Feed(cfg, c2, s, 2));
  }

  /**
   * A parser for either kind of message takes one that begins with HT for a response, and any other that it does not
   * stop in for a request; it then does what a parser for that kind does.
   */
  lemma EitherKind(cfg: Settings, c: Core, s: seq<char>)
    requires c.state.StartReqOrRes? && c.errno.Ok? && |s| >= 2 && s[0] != CR && s[0] != LF
    ensures s[0] != 'H' || s[1] == 'E' ==>
              Feed(cfg, c, s, 0) == Feed(cfg, c.(state := StartReq, kind := Request), s, 0)
    ensures s[0] == 'H' && s[1] == 'T' ==>
              Feed(cfg, c, s, 0) == Feed(cfg, c.(state := StartRes, kind := Response), s, 0)
    ensures s[0] == 'H' && s[1] != 'T' && s[1] != 'E' ==> Stops(cfg, c, s)
  {
    hide Dispatch, Feed, Slips, SlipsAt;
    EitherByte(cfg, c, s[0]);
    var req, res := c.(state := StartReq, kind := Request), c.(state := StartRes, kind := Response);
    if s[0] == 'H' {
      var c1 := Fresh(c).(state := ResOrRespH);
      AfterHByte(cfg, c1, s[1]);
      RequestHBytes(cfg, req);
      RequestHBytes(cfg, res);
      if s[1] == 'E' {
        var d1 := Fresh(req).(state := ReqMethod, meth := HEAD, index := 1);
        RequestHBytes(cfg, d1);
        TwoBytes(cfg, c, s, c1, d1.(index := 2));
        TwoBytes(cfg, req, s, d1, d1.(index := 2));
      } else if s[1] == 'T' {
        var d1 := Fresh(res).(state := ResH);
        RequestHBytes(cfg, d1);
        TwoBytes(cfg, c, s, c1, d1.(state := ResHT));
        TwoBytes(cfg, res, s, d1, d1.(state := ResHT));
      } else {
        StopsFirst(cfg, c, s);
        StopsFirst(cfg, c1, s[1..]);
      }
    } else {
      FeedAgain(cfg, c, s, 0);
      SameStart(cfg, req, s);
    }
  }

  /** The first byte of a request makes a fresh start. */
  lemma SameStart(cfg: Settings, c: Core, s: seq<char>)
    requires c.state.StartReq? && s != [] && s[0] != CR && s[0] != LF
    ensures Feed(cfg, c, s, 0) == HttpParserFeed.After([], Feed(cfg, Fresh(c), s, 0))
  {
    assert Dispatch(cfg, c, s[0]) == Dispatch(cfg, Fresh(c), s[0]);
    AfterNothing(Feed(cfg, Fresh(c), s, 0));
  }
}

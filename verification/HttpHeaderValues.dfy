/**
 * The matchers for the two header values that decide about a body and a connection, against what such a value says:
 * the coding named by Transfer-Encoding, and the options listed by Connection.
 */
module HttpHeaderValues {
  import opened HttpChars
  import opened HttpParserTypes
  import opened HttpParserStep
  import opened HttpParserFeed

  /** The word w begins with b, without regard to case. */
  predicate Begins(b: seq<char>, w: seq<char>) {
    |b| <= |w| && forall i :: 0 <= i < |b| ==> Lower(b[i]) == w[i]
  }

  /** b is the word w, without regard to case, and spaces behind it. */
  predicate Names(b: seq<char>, w: seq<char>) {
    |w| <= |b| && (forall i :: 0 <= i < |w| ==> Lower(b[i]) == w[i]) && (forall i :: |w| <= i < |b| ==> b[i] == ' ')
  }

  lemma BeginsStep(b: seq<char>, ch: char, w: seq<char>)
    ensures Begins(b + [ch], w) <==> Begins(b, w) && |b| < |w| && Lower(ch) == w[|b|]
    ensures Names(b + [ch], w) <==>
              (Names(b, w) && ch == ' ') || (|b| + 1 == |w| && Begins(b, w) && Lower(ch) == w[|b|]) ||
                (w == [] && b == [] && ch == ' ')
  {
    var s := b + [ch];
    assert s[..|b|] == b && s[|b|] == ch;
    assert forall i :: 0 <= i < |b| ==> s[i] == b[i];
  }

  lemma OneBegins(ch: char, w: seq<char>)
    requires 1 < |w|
    ensures (Begins([ch], w) <==> Lower(ch) == w[0]) && !Names([ch], w)
  {
    assert [ch][0] == ch;
  }

  /** The bytes of a header value: no line end, and nothing forbidden behind the first byte, which is not looked at. */
  predicate IsValue(lenient: bool, v: seq<char>) {
    forall i :: 0 <= i < |v| ==> v[i] != CR && v[i] != LF && (i == 0 || lenient || IsHeaderChar(v[i]))
  }

  /** A value begins where the white space behind the colon ends. */
  predicate Starts(v: seq<char>) {
    v != [] && v[0] != ' ' && v[0] != '\t'
  }

  /** A byte that goes on with a value. */
  lemma GoesOn(cfg: Settings, c: Core, v: seq<char>, p: nat)
    requires IsValue(c.lenient, v) && 0 < p < |v| && c.state.HeaderValue?
    ensures Dispatch(cfg, c, v[p]) == ValueChar(c, v[p])
  {
  }

  /** The first byte of a value. */
  lemma Begun(cfg: Settings, c: Core, v: seq<char>)
    requires IsValue(c.lenient, v) && Starts(v) && c.state.HeaderValueDiscardWs?
    ensures Dispatch(cfg, c, v[0]) == ValueStart(c, v[0])
  {
  }

  /** A byte that joins the value in front of bytes that do. */
  lemma JoinsValue(cfg: Settings, c: Core, c1: Core, v: seq<char>, p: nat)
    requires p < |v| && c1.state.HeaderValue? && Dispatch(cfg, c, v[p]) == Keep(c1, HeaderValue, Value)
    requires var f := Feed(cfg, c1, v, p + 1); !f.stopped && f.events == DataEvents(Value, v[p + 1..])
    ensures Feed(cfg, c, v, p) == Feed(cfg, c1, v, p + 1).(events := DataEvents(Value, v[p..]))
  {
    hide Dispatch, Feed, Slips, SlipsAt;
    FeedAdvance(cfg, c, v, p);
    assert [Data(Value, v[p])] + DataEvents(Value, v[p + 1..]) == DataEvents(Value, v[p..]);
  }

  // ---------------------------------------------------------------- Transfer-Encoding

  /** The matcher's state and index are what the bytes of the value read so far say. */
  predicate KnowsCoding(h: HState, index: nat, b: seq<char>) {
    && (h.MatchingTransferEncodingChunked? <==> |b| < |CHUNKED| && Begins(b, CHUNKED))
    && (h.TransferEncodingChunked? <==> Names(b, CHUNKED))
    && (h.MatchingTransferEncodingChunked? || h.TransferEncodingChunked? || h.General?)
    && (h.MatchingTransferEncodingChunked? ==> index == |b| - 1)
  }

  lemma CodingStart(c: Core, ch: char)
    requires c.header.TransferEncoding?
    ensures var o := ValueStart(c, ch);
            o == Keep(c.(header := o.core.header, index := 0), HeaderValue, Value) &&
              KnowsCoding(o.core.header, 0, [ch])
  {
    OneBegins(ch, CHUNKED);
  }

  lemma CodingStep(c: Core, b: seq<char>, ch: char)
    requires c.state.HeaderValue? && b != [] && KnowsCoding(c.header, c.index, b)
    ensures var o := ValueChar(c, ch);
            && o == Keep(c.(header := o.core.header, index := o.core.index), HeaderValue, Value)
            && KnowsCoding(o.core.header, o.core.index, b + [ch])
  {
    hide Begins, Names;
    BeginsStep(b, ch, CHUNKED);
    WordLength(b, CHUNKED);
  }

  lemma WordLength(b: seq<char>, w: seq<char>)
    ensures Begins(b, w) ==> |b| <= |w|
    ensures Names(b, w) ==> |w| <= |b|
    ensures Begins(b, w) && |b| == |w| ==> Names(b, w)
  {
  }

  lemma {:induction false} FeedCoding(cfg: Settings, c: Core, v: seq<char>, p: nat)
    requires IsValue(c.lenient, v) && 0 < p <= |v| && c.state.HeaderValue? && KnowsCoding(c.header, c.index, v[..p])
    ensures var f := Feed(cfg, c, v, p);
            && !f.stopped && f.core == c.(header := f.core.header, index := f.core.index)
            && KnowsCoding(f.core.header, f.core.index, v) && f.events == DataEvents(Value, v[p..])
    decreases |v| - p
  {
    hide Dispatch, Feed, Slips, SlipsAt, KnowsCoding, IsValue, ValueChar;
    if p == |v| {
      NothingLeft(cfg, c, v);
      assert v[..p] == v;
    } else {
      GoesOn(cfg, c, v, p);
      CodingStep(c, v[..p], v[p]);
      assert v[..p] + [v[p]] == v[..p + 1];
      FeedCoding(cfg, ValueChar(c, v[p]).core, v, p + 1);
      JoinsValue(cfg, c, ValueChar(c, v[p]).core, v, p);
    }
  }

  /**
   * The chunked flag is set for a Transfer-Encoding value if and only if that is "chunked", in any case, with nothing
   * but spaces behind it.
   */
  lemma ChunkedRecognised(cfg: Settings, c: Core, v: seq<char>)
    requires c.state.HeaderValueDiscardWs? && c.header.TransferEncoding? && Starts(v) && IsValue(c.lenient, v)
    ensures var f := Feed(cfg, c, v, 0);
            && !f.stopped && f.core.state.HeaderValue? && f.events == DataEvents(Value, v)
            && f.core == c.(state := HeaderValue, header := f.core.header, index := f.core.index)
            && FinishHeader(f.core.flags, f.core.header) == c.flags.(chunked := c.flags.chunked || Names(v, CHUNKED))
  {
    hide Dispatch, Feed, Slips, SlipsAt, Begins, Names, IsValue, ValueStart, ValueChar;
    Begun(cfg, c, v);
    CodingStart(c, v[0]);
    assert v[..1] == [v[0]] && v[0..] == v;
    FeedCoding(cfg, ValueStart(c, v[0]).core, v, 1);
    JoinsValue(cfg, c, ValueStart(c, v[0]).core, v, 0);
  }

  // ---------------------------------------------------------------- Connection

  /**
   * The options of a list from p on, when b of the first has been read: cut at commas, without the spaces before them.
   */
  function Options(b: seq<char>, v: seq<char>, p: nat): (options: seq<seq<char>>)
    requires p <= |v|
    ensures |options| > 0
    decreases |v| - p
  {
    if p == |v| then [b]
    else if v[p] == ',' then [b] + Options([], v, p + 1)
    else if b == [] && Lower(v[p]) == ' ' then Options([], v, p + 1)
    else Options(b + [v[p]], v, p + 1)
  }

  /** The options of a value. The first byte is one of the first option's, unless it is a comma. */
  function OptionsOf(v: seq<char>): (options: seq<seq<char>>)
    requires v != []
    ensures |options| > 0
  {
    if v[0] == ',' then [[]] + Options([], v, 1) else Options([v[0]], v, 1)
  }

  /** An option that is the beginning of one looked for swallows the comma behind it, and with it the next option. */
  predicate Swallows(b: seq<char>, first: bool) {
    if b == [] then first
    else (|b| < |KEEP_ALIVE| && Begins(b, KEEP_ALIVE)) || (|b| < |CLOSE| && Begins(b, CLOSE)) ||
         (|b| < |UPGRADE| && Begins(b, UPGRADE))
  }

  /** A blank option, or one that does not begin as a token does, ends the hearing, unless it is the first. */
  predicate Deafens(b: seq<char>, first: bool) {
    !first && (b == [] || !IsToken(Lower(b[0])))
  }

  /** The options that the matcher hears. */
  function Heard(options: seq<seq<char>>, first: bool): (heard: seq<seq<char>>)
  {
    if options == [] then []
    else if Swallows(options[0], first) then (if |options| == 1 then [] else Heard(options[2..], false))
    else if Deafens(options[0], first) then []
    else [options[0]] + Heard(options[1..], false)
  }

  predicate Named(options: seq<seq<char>>, w: seq<char>) {
    exists i :: 0 <= i < |options| && Names(options[i], w)
  }

  /** The flags with those that a list of options names. */
  function WithOptions(f: Flags, options: seq<seq<char>>): Flags {
    f.(keepAlive := f.keepAlive || Named(options, KEEP_ALIVE), close := f.close || Named(options, CLOSE),
       connectionUpgrade := f.connectionUpgrade || Named(options, UPGRADE))
  }

  /** What is heard has been said. */
  lemma {:induction false} HeardNamed(options: seq<seq<char>>, first: bool, w: seq<char>)
    ensures Named(Heard(options, first), w) ==> Named(options, w)
    decreases |options|
  {
    hide Names, Swallows, Deafens;
    if options != [] {
      if Swallows(options[0], first) {
        if |options| > 1 {
          HeardNamed(options[2..], false, w);
        }
      } else if !Deafens(options[0], first) {
        HeardNamed(options[1..], false, w);
        assert options == [options[0]] + options[1..];
        NamedJoin(options[0], options[1..], w);
        NamedJoin(options[0], Heard(options[1..], false), w);
      }
    }
  }

  /** Every option looked for that is named is heard, or its flag is set anyway. */
  predicate NothingMissed(f: Flags, options: seq<seq<char>>) {
    && (f.keepAlive || Named(options, KEEP_ALIVE) ==> f.keepAlive || Named(Heard(options, true), KEEP_ALIVE))
    && (f.close || Named(options, CLOSE) ==> f.close || Named(Heard(options, true), CLOSE))
    && (f.connectionUpgrade || Named(options, UPGRADE) ==> f.connectionUpgrade || Named(Heard(options, true), UPGRADE))
  }

  lemma MissedIff(f: Flags, options: seq<seq<char>>)
    ensures WithOptions(f, Heard(options, true)) == WithOptions(f, options) <==> NothingMissed(f, options)
  {
    hide Named, Heard;
    HeardNamed(options, true, KEEP_ALIVE);
    HeardNamed(options, true, CLOSE);
    HeardNamed(options, true, UPGRADE);
  }

  /** The matcher's state and index are what the bytes of the present option say. */
  predicate KnowsOption(h: HState, index: nat, b: seq<char>, first: bool) {
    && (h.MatchingConnectionTokenStart? <==> b == [])
    && (h.MatchingConnectionKeepAlive? <==> b != [] && |b| < |KEEP_ALIVE| && Begins(b, KEEP_ALIVE))
    && (h.MatchingConnectionClose? <==> b != [] && |b| < |CLOSE| && Begins(b, CLOSE))
    && (h.MatchingConnectionUpgrade? <==> b != [] && |b| < |UPGRADE| && Begins(b, UPGRADE))
    && (h.ConnectionKeepAlive? <==> Names(b, KEEP_ALIVE))
    && (h.ConnectionClose? <==> Names(b, CLOSE))
    && (h.ConnectionUpgrade? <==> Names(b, UPGRADE))
    && (h.General? <==> b != [] && Deafens(b, first))
    && IsValueHState(h) && !h.ContentLength? && !h.MatchingTransferEncodingChunked? && !h.TransferEncodingChunked?
    && (h.MatchingConnectionTokenStart? ==> index == 0)
    && (h.MatchingConnectionKeepAlive? || h.MatchingConnectionClose? || h.MatchingConnectionUpgrade? ==>
          index == |b| - 1)
  }

  lemma OptionBegins(ch: char)
    ensures Begins([ch], KEEP_ALIVE) <==> Lower(ch) == 'k'
    ensures Begins([ch], CLOSE) <==> Lower(ch) == 'c'
    ensures Begins([ch], UPGRADE) <==> Lower(ch) == 'u'
    ensures !Names([ch], KEEP_ALIVE) && !Names([ch], CLOSE) && !Names([ch], UPGRADE)
  {
    OneBegins(ch, KEEP_ALIVE);
    OneBegins(ch, CLOSE);
    OneBegins(ch, UPGRADE);
  }

  lemma OptionStart(c: Core, ch: char)
    requires c.header.Connection?
    ensures var o := ValueStart(c, ch);
            o == Keep(c.(header := o.core.header, index := 0), HeaderValue, Value) &&
              KnowsOption(o.core.header, 0, [ch], true)
  {
    hide Begins, Names;
    OptionBegins(ch);
  }

  lemma OptionFirst(c: Core, ch: char)
    requires c.state.HeaderValue? && KnowsOption(c.header, c.index, [], false) && Lower(ch) != ' '
    ensures var o := ValueChar(c, ch);
            o == Keep(c.(header := o.core.header, index := o.core.index), HeaderValue, Value) &&
            KnowsOption(o.core.header, o.core.index, [ch], false)
  {
    hide Begins, Names;
    OptionBegins(ch);
  }

  lemma OptionSpace(c: Core, ch: char)
    requires c.state.HeaderValue? && KnowsOption(c.header, c.index, [], false) && Lower(ch) == ' '
    ensures ValueChar(c, ch) == Keep(c, HeaderValue, Value)
  {
  }

  lemma OptionWords(b: seq<char>, ch: char)
    requires b != []
    ensures Begins(b + [ch], KEEP_ALIVE) <==>
              Begins(b, KEEP_ALIVE) && |b| < |KEEP_ALIVE| && Lower(ch) == KEEP_ALIVE[|b|]
    ensures Begins(b + [ch], CLOSE) <==> Begins(b, CLOSE) && |b| < |CLOSE| && Lower(ch) == CLOSE[|b|]
    ensures Begins(b + [ch], UPGRADE) <==> Begins(b, UPGRADE) && |b| < |UPGRADE| && Lower(ch) == UPGRADE[|b|]
    ensures Names(b + [ch], KEEP_ALIVE) <==>
              (Names(b, KEEP_ALIVE) && ch == ' ') ||
                (|b| + 1 == |KEEP_ALIVE| && Begins(b, KEEP_ALIVE) && Lower(ch) == KEEP_ALIVE[|b|])
    ensures Names(b + [ch], CLOSE) <==>
              (Names(b, CLOSE) && ch == ' ') || (|b| + 1 == |CLOSE| && Begins(b, CLOSE) && Lower(ch) == CLOSE[|b|])
    ensures Names(b + [ch], UPGRADE) <==>
              (Names(b, UPGRADE) && ch == ' ') ||
                (|b| + 1 == |UPGRADE| && Begins(b, UPGRADE) && Lower(ch) == UPGRADE[|b|])
  {
    hide Begins, Names;
    BeginsStep(b, ch, KEEP_ALIVE);
    BeginsStep(b, ch, CLOSE);
    BeginsStep(b, ch, UPGRADE);
  }

  /** A byte of an option that is still being matched with a word. */
  lemma OptionMatching(c: Core, b: seq<char>, first: bool, ch: char)
    requires c.state.HeaderValue? && b != [] && ch != ',' && KnowsOption(c.header, c.index, b, first)
    requires c.header.MatchingConnectionKeepAlive? || c.header.MatchingConnectionClose? ||
             c.header.MatchingConnectionUpgrade?
    ensures Advances(c, b, first, ch)
  {
    hide Begins, Names, IsToken, Lower, ValueChar;
    OptionWords(b, ch);
    WordLength(b, KEEP_ALIVE);
    WordLength(b, CLOSE);
    WordLength(b, UPGRADE);
    FirstLetters(b);
    TokenBegins(b);
    assert (b + [ch])[0] == b[0];
    if c.header.MatchingConnectionKeepAlive? {
      WordByte(c, ch, KEEP_ALIVE, ConnectionKeepAlive);
    } else if c.header.MatchingConnectionClose? {
      WordByte(c, ch, CLOSE, ConnectionClose);
    } else {
      WordByte(c, ch, UPGRADE, ConnectionUpgrade);
    }
  }

  lemma WordByte(c: Core, ch: char, word: seq<char>, done: HState)
    requires c.state.HeaderValue? && c.index < |word| <= 10
    requires (c.header.MatchingConnectionKeepAlive? && word == KEEP_ALIVE && done == ConnectionKeepAlive) ||
             (c.header.MatchingConnectionClose? && word == CLOSE && done == ConnectionClose) ||
             (c.header.MatchingConnectionUpgrade? && word == UPGRADE && done == ConnectionUpgrade)
    ensures var i := c.index + 1;
            var h := if i >= |word| || Lower(ch) != word[i] then MatchingConnectionToken
                     else if i == |word| - 1 then done
                     else c.header;
            ValueChar(c, ch) == Keep(c.(index := i, header := h), HeaderValue, Value)
  {
  }

  lemma TokenBegins(b: seq<char>)
    requires b != [] && (Begins(b, KEEP_ALIVE) || Begins(b, CLOSE) || Begins(b, UPGRADE))
    ensures IsToken(Lower(b[0]))
  {
  }

  /** A byte of an option that is one of the words so far, or none of them. */
  lemma OptionMatched(c: Core, b: seq<char>, first: bool, ch: char)
    requires c.state.HeaderValue? && b != [] && ch != ',' && KnowsOption(c.header, c.index, b, first)
    requires !c.header.MatchingConnectionKeepAlive? && !c.header.MatchingConnectionClose? &&
             !c.header.MatchingConnectionUpgrade?
    ensures Advances(c, b, first, ch)
  {
    hide Begins, Names, IsToken, Lower;
    OptionWords(b, ch);
    WordLength(b, KEEP_ALIVE);
    WordLength(b, CLOSE);
    WordLength(b, UPGRADE);
    FirstLetters(b);
    assert (b + [ch])[0] == b[0];
  }

  /** A byte joins the option. */
  predicate Advances(c: Core, b: seq<char>, first: bool, ch: char) {
    var o := ValueChar(c, ch);
    && o == Keep(c.(header := o.core.header, index := o.core.index), HeaderValue, Value)
    && KnowsOption(o.core.header, o.core.index, b + [ch], first)
  }

  lemma OptionStep(c: Core, b: seq<char>, first: bool, ch: char)
    requires c.state.HeaderValue? && b != [] && ch != ',' && KnowsOption(c.header, c.index, b, first)
    ensures Advances(c, b, first, ch)
  {
    hide KnowsOption, Advances;
    if c.header.MatchingConnectionKeepAlive? || c.header.MatchingConnectionClose? ||
      c.header.MatchingConnectionUpgrade? {
      OptionMatching(c, b, first, ch);
    } else {
      OptionMatched(c, b, first, ch);
    }
  }

  /** The three words begin with different letters. */
  lemma FirstLetters(b: seq<char>)
    requires b != []
    ensures Begins(b, KEEP_ALIVE) || Names(b, KEEP_ALIVE) ==>
              !Begins(b, CLOSE) && !Names(b, CLOSE) && !Begins(b, UPGRADE) && !Names(b, UPGRADE)
    ensures Begins(b, CLOSE) || Names(b, CLOSE) ==> !Begins(b, UPGRADE) && !Names(b, UPGRADE)
  {
    if Begins(b, KEEP_ALIVE) || Names(b, KEEP_ALIVE) { assert Lower(b[0]) == 'k'; }
    if Begins(b, CLOSE) || Names(b, CLOSE) { assert Lower(b[0]) == 'c'; }
    if Begins(b, UPGRADE) || Names(b, UPGRADE) { assert Lower(b[0]) == 'u'; }
  }

  /** The flags of one option. */
  lemma OneOption(f: Flags, h: HState, index: nat, b: seq<char>, first: bool)
    requires KnowsOption(h, index, b, first)
    ensures ConnectionOption(f, h) == WithOptions(f, Heard([b], first)) == FinishHeader(f, h)
    ensures !Swallows(b, first) && !Deafens(b, first) ==> Heard([b], first) == [b]
  {
    hide Begins, Names;
    NothingNamed();
    OneNamed(b, KEEP_ALIVE);
    OneNamed(b, CLOSE);
    OneNamed(b, UPGRADE);
    assert [b][1..] == [] && [b] + [] == [b];
    NoOptions(f);
  }

  lemma OneNamed(b: seq<char>, w: seq<char>)
    ensures Named([b], w) <==> Names(b, w)
  {
    assert [b][0] == b;
  }

  /** A comma behind an option that is heard. */
  lemma OptionEnd(c: Core, b: seq<char>, first: bool)
    requires c.state.HeaderValue? && KnowsOption(c.header, c.index, b, first)
    requires !Swallows(b, first) && !Deafens(b, first)
    ensures ValueChar(c, ',') ==
            Keep(c.(flags := WithOptions(c.flags, [b]), index := 0, header := MatchingConnectionTokenStart),
                 HeaderValue, Value)
    ensures KnowsOption(MatchingConnectionTokenStart, 0, [], false)
  {
    OneOption(c.flags, c.header, c.index, b, first);
    hide Begins, Names, IsToken, Lower, WithOptions, Heard;
    NothingNamed();
  }

  /** A comma behind an option that swallows it. */
  lemma CommaSwallowed(c: Core, b: seq<char>, first: bool)
    requires c.state.HeaderValue? && b != [] && KnowsOption(c.header, c.index, b, first) && Swallows(b, first)
    ensures var o := ValueChar(c, ',');
            o == Keep(c.(header := MatchingConnectionToken, index := o.core.index), HeaderValue, Value)
  {
    hide Begins, Names, IsToken, Lower, ValueChar;
    NoComma(b);
    if c.header.MatchingConnectionKeepAlive? {
      WordByte(c, ',', KEEP_ALIVE, ConnectionKeepAlive);
    } else if c.header.MatchingConnectionClose? {
      WordByte(c, ',', CLOSE, ConnectionClose);
    } else {
      WordByte(c, ',', UPGRADE, ConnectionUpgrade);
    }
  }

  /** No word goes on with a comma. */
  lemma NoComma(b: seq<char>)
    ensures |b| < |KEEP_ALIVE| ==> KEEP_ALIVE[|b|] != Lower(',')
    ensures |b| < |CLOSE| ==> CLOSE[|b|] != Lower(',')
    ensures |b| < |UPGRADE| ==> UPGRADE[|b|] != Lower(',')
  {
  }

  /** A comma behind an option that ends the hearing. */
  lemma CommaUnheard(c: Core, b: seq<char>)
    requires c.state.HeaderValue? && KnowsOption(c.header, c.index, b, false) && Deafens(b, false)
    ensures ValueChar(c, ',') == Keep(c.(header := General), HeaderValue, Value)
  {
  }

  lemma NothingNamed()
    ensures !Names([], KEEP_ALIVE) && !Names([], CLOSE) && !Names([], UPGRADE)
  {
  }

  lemma OptionsJoin(f: Flags, b: seq<char>, rest: seq<seq<char>>)
    ensures WithOptions(WithOptions(f, [b]), rest) == WithOptions(f, [b] + rest)
  {
    hide Names;
    NamedJoin(b, rest, KEEP_ALIVE);
    NamedJoin(b, rest, CLOSE);
    NamedJoin(b, rest, UPGRADE);
  }

  lemma NamedJoin(b: seq<char>, rest: seq<seq<char>>, w: seq<char>)
    ensures Named([b] + rest, w) <==> Named([b], w) || Named(rest, w)
  {
    hide Names;
    OneNamed(b, w);
    var all := [b] + rest;
    assert all[0] == b;
    if i :| 0 <= i < |rest| && Names(rest[i], w) {
      assert all[i + 1] == rest[i];
    }
    if i :| 0 <= i < |all| && Names(all[i], w) {
      assert i > 0 ==> all[i] == rest[i - 1];
    }
  }

  lemma HeardJoin(f: Flags, b: seq<char>, rest: seq<seq<char>>, first: bool)
    requires rest != []
    ensures Swallows(b, first) ==> Heard([b] + rest, first) == Heard(rest[1..], false)
    ensures !Swallows(b, first) && Deafens(b, first) ==> Heard([b] + rest, first) == []
    ensures !Swallows(b, first) && !Deafens(b, first) ==>
              WithOptions(f, Heard([b] + rest, first)) == WithOptions(WithOptions(f, [b]), Heard(rest, false))
  {
    hide Swallows, Deafens, WithOptions;
    var all := [b] + rest;
    assert all[0] == b && all[1..] == rest && all[2..] == rest[1..];
    OptionsJoin(f, b, Heard(rest, false));
  }

  lemma NoOptions(f: Flags)
    ensures WithOptions(f, []) == f
  {
  }

  /** What the feed of the rest of a value comes to. */
  predicate Comes(cfg: Settings, c: Core, v: seq<char>, p: nat, flags: Flags)
    requires p <= |v|
  {
    var f := Feed(cfg, c, v, p);
    && !f.stopped && f.events == DataEvents(Value, v[p..])
    && f.core == c.(state := HeaderValue, header := f.core.header, index := f.core.index, flags := f.core.flags)
    && FinishHeader(f.core.flags, f.core.header) == flags
  }

  lemma ComesOn(cfg: Settings, c: Core, c1: Core, v: seq<char>, p: nat, flags: Flags)
    requires p < |v| && c1.state.HeaderValue? && Dispatch(cfg, c, v[p]) == Keep(c1, HeaderValue, Value)
    requires c1 == c.(state := HeaderValue, header := c1.header, index := c1.index, flags := c1.flags)
    requires Comes(cfg, c1, v, p + 1, flags)
    ensures Comes(cfg, c, v, p, flags) && Feed(cfg, c, v, p).core == Feed(cfg, c1, v, p + 1).core
  {
    hide Dispatch, Feed, FinishHeader;
    JoinsValue(cfg, c, c1, v, p);
  }

  /** A value in which an option has been read to p. */
  lemma {:induction false} FeedOptions(cfg: Settings, c: Core, b: seq<char>, first: bool, v: seq<char>, p: nat)
    requires IsValue(c.lenient, v) && 0 < p <= |v| && c.state.HeaderValue?
    requires KnowsOption(c.header, c.index, b, first) && (b == [] ==> !first)
    ensures Comes(cfg, c, v, p, WithOptions(c.flags, Heard(Options(b, v, p), first)))
    decreases |v| - p
  {
    hide Dispatch, Feed, Slips, SlipsAt, KnowsOption, IsValue, ValueChar, WithOptions, FinishHeader, Heard, Swallows,
         Deafens,
         Lower;
    if p == |v| {
      NothingLeft(cfg, c, v);
      OneOption(c.flags, c.header, c.index, b, first);
    } else {
      var ch := v[p];
      GoesOn(cfg, c, v, p);
      var c1 := ValueChar(c, ch).core;
      var flags := WithOptions(c.flags, Heard(Options(b, v, p), first));
      if ch == ',' {
        FeedComma(cfg, c, b, first, v, p);
      } else if b == [] && Lower(ch) == ' ' {
        OptionSpace(c, ch);
        FeedOptions(cfg, c1, [], first, v, p + 1);
        ComesOn(cfg, c, c1, v, p, flags);
      } else if b == [] {
        OptionFirst(c, ch);
        assert [] + [ch] == [ch];
        FeedOptions(cfg, c1, [ch], first, v, p + 1);
        ComesOn(cfg, c, c1, v, p, flags);
      } else {
        hide Advances;
        OptionStep(c, b, first, ch);
        AdvancesTo(c, b, first, ch);
        FeedOptions(cfg, c1, b + [ch], first, v, p + 1);
        ComesOn(cfg, c, c1, v, p, flags);
      }
    }
  }

  lemma AdvancesTo(c: Core, b: seq<char>, first: bool, ch: char)
    requires Advances(c, b, first, ch)
    ensures var o := ValueChar(c, ch);
            && o == Keep(c.(header := o.core.header, index := o.core.index), HeaderValue, Value)
            && KnowsOption(o.core.header, o.core.index, b + [ch], first)
  {
  }

  /** The comma at p behind an option. */
  lemma {:induction false} FeedComma(cfg: Settings, c: Core, b: seq<char>, first: bool, v: seq<char>, p: nat)
    requires IsValue(c.lenient, v) && 0 < p < |v| && v[p] == ',' && c.state.HeaderValue?
    requires KnowsOption(c.header, c.index, b, first) && (b == [] ==> !first)
    ensures Comes(cfg, c, v, p, WithOptions(c.flags, Heard(Options(b, v, p), first)))
    decreases |v| - p, 0
  {
    hide Dispatch, Feed, Slips, SlipsAt, KnowsOption, IsValue, ValueChar, WithOptions, FinishHeader, Heard;
    GoesOn(cfg, c, v, p);
    var c1 := ValueChar(c, ',').core;
    var flags := WithOptions(c.flags, Heard(Options(b, v, p), first));
    HeardJoin(c.flags, b, Options([], v, p + 1), first);
    if Swallows(b, first) {
      CommaSwallowed(c, b, first);
      FeedSwallowed(cfg, c1, [], v, p + 1);
    } else if Deafens(b, first) {
      CommaUnheard(c, b);
      NoOptions(c.flags);
      FeedUnheard(cfg, c1, v, p + 1);
    } else {
      OptionEnd(c, b, first);
      FeedOptions(cfg, c1, [], false, v, p + 1);
    }
    ComesOn(cfg, c, c1, v, p, flags);
  }

  /** A value in which an option is being swallowed, of which b has been read. */
  lemma {:induction false} FeedSwallowed(cfg: Settings, c: Core, b: seq<char>, v: seq<char>, p: nat)
    requires IsValue(c.lenient, v) && 0 < p <= |v| && c.state.HeaderValue? && c.header.MatchingConnectionToken?
    ensures Comes(cfg, c, v, p, WithOptions(c.flags, Heard(Options(b, v, p)[1..], false)))
    decreases |v| - p
  {
    hide Dispatch, Feed, Slips, SlipsAt, KnowsOption, IsValue, ValueChar, WithOptions, FinishHeader, Lower;
    SwallowedByte(c, if p < |v| then v[p] else ' ');
    if p == |v| {
      NothingLeft(cfg, c, v);
      NoOptions(c.flags);
    } else {
      var ch := v[p];
      GoesOn(cfg, c, v, p);
      var c1 := ValueChar(c, ch).core;
      var flags := WithOptions(c.flags, Heard(Options(b, v, p)[1..], false));
      if ch == ',' {
        assert ([b] + Options([], v, p + 1))[1..] == Options([], v, p + 1);
        FeedOptions(cfg, c1, [], false, v, p + 1);
      } else {
        FeedSwallowed(cfg, c1, if b == [] && Lower(ch) == ' ' then [] else b + [ch], v, p + 1);
      }
      ComesOn(cfg, c, c1, v, p, flags);
    }
  }

  lemma SwallowedByte(c: Core, ch: char)
    requires c.state.HeaderValue? && c.header.MatchingConnectionToken?
    ensures ValueChar(c, ch) ==
            Keep(if ch == ',' then c.(index := 0, header := MatchingConnectionTokenStart) else c, HeaderValue, Value)
    ensures KnowsOption(MatchingConnectionTokenStart, 0, [], false) && FinishHeader(c.flags, c.header) == c.flags
  {
    NothingNamed();
  }

  /** A value of which nothing more is heard. */
  lemma {:induction false} FeedUnheard(cfg: Settings, c: Core, v: seq<char>, p: nat)
    requires IsValue(c.lenient, v) && 0 < p <= |v| && c.state.HeaderValue? && c.header.General?
    ensures Comes(cfg, c, v, p, c.flags) && Feed(cfg, c, v, p).core == c
    decreases |v| - p
  {
    hide Dispatch, Feed, Slips, SlipsAt, IsValue;
    if p == |v| {
      NothingLeft(cfg, c, v);
    } else {
      GoesOn(cfg, c, v, p);
      FeedUnheard(cfg, c, v, p + 1);
      ComesOn(cfg, c, c, v, p, c.flags);
    }
  }

  /**
   * The flags that a Connection value sets are those of the options it lists, in any case and with any spaces around
   * them, as far as they are heard; and so they are right if and only if no option looked for is missed.
   */
  lemma OptionsRecognised(cfg: Settings, c: Core, v: seq<char>)
    requires c.state.HeaderValueDiscardWs? && c.header.Connection? && Starts(v) && IsValue(c.lenient, v)
    ensures var f := Feed(cfg, c, v, 0); var flags := FinishHeader(f.core.flags, f.core.header);
            && !f.stopped && f.events == DataEvents(Value, v)
            && f.core == c.(state := HeaderValue, header := f.core.header, index := f.core.index, flags := f.core.flags)
            && flags == WithOptions(c.flags, Heard(OptionsOf(v), true))
            && (flags == WithOptions(c.flags, OptionsOf(v)) <==> NothingMissed(c.flags, OptionsOf(v)))
  {
    hide Dispatch, Feed, Slips, SlipsAt, KnowsOption, IsValue, ValueStart, WithOptions, FinishHeader, Options, Lower,
         Heard, Swallows, NothingMissed;
    Begun(cfg, c, v);
    var c1 := ValueStart(c, v[0]).core;
    if v[0] == ',' {
      CommaFirst(c, Options([], v, 1));
      FeedSwallowed(cfg, c1, [], v, 1);
    } else {
      OptionStart(c, v[0]);
      FeedOptions(cfg, c1, [v[0]], true, v, 1);
    }
    assert v[0..] == v;
    ComesOn(cfg, c, c1, v, 0, WithOptions(c.flags, Heard(OptionsOf(v), true)));
    MissedIff(c.flags, OptionsOf(v));
  }

  lemma CommaFirst(c: Core, rest: seq<seq<char>>)
    requires c.header.Connection? && rest != []
    ensures ValueStart(c, ',') == Keep(c.(index := 0, header := MatchingConnectionToken), HeaderValue, Value)
    ensures Heard([[]] + rest, true) == Heard(rest[1..], false)
  {
    var all: seq<seq<char>> := [[]] + rest;
    assert all[0] == [] && all[2..] == rest[1..];
  }

  /** An option that is the beginning of one looked for hides the option behind it. */
  lemma OptionHidden(cfg: Settings, c: Core)
    requires c.state.HeaderValueDiscardWs? && c.header.Connection? && !c.flags.close
    ensures var f := Feed(cfg, c, "u,close", 0); !f.stopped && FinishHeader(f.core.flags, f.core.header) == c.flags
    ensures Named(OptionsOf("u,close"), CLOSE) && !NothingMissed(c.flags, OptionsOf("u,close"))
  {
    hide Dispatch, Feed, FinishHeader, WithOptions, Options, NothingMissed;
    HiddenOptions();
    assert IsValue(c.lenient, "u,close");
    OptionsRecognised(cfg, c, "u,close");
    NoOptions(c.flags);
    MissedIff(c.flags, ["u", "close"]);
    CloseNamed(c.flags);
  }

  lemma CloseNamed(f: Flags)
    requires !f.close
    ensures Named(["u", "close"], CLOSE) && WithOptions(f, ["u", "close"]) != f
  {
    assert ["u", "close"][1] == "close";
    assert Names("close", CLOSE);
  }

  lemma HiddenOptions()
    ensures OptionsOf("u,close") == ["u", "close"] && Heard(["u", "close"], true) == []
  {
    hide Lower;
    var v := "u,close";
    assert Lower('u') == 'u' && Lower('c') == 'c' by { Letters(); }
    assert Options("close", v, 7) == ["close"];
    assert "clos" + [v[6]] == "close" && Options("clos", v, 6) == ["close"];
    assert "clo" + [v[5]] == "clos" && Options("clo", v, 5) == ["close"];
    assert "cl" + [v[4]] == "clo" && Options("cl", v, 4) == ["close"];
    assert "c" + [v[3]] == "cl" && Options("c", v, 3) == ["close"];
    assert "" + [v[2]] == "c" && Options("", v, 2) == ["close"];
    assert Options("u", v, 1) == ["u"] + ["close"];
    assert [v[0]] == "u";
    assert ["u", "close"][2..] == [];
    assert Begins("u", UPGRADE);
  }

  lemma Letters()
    ensures Lower('u') == 'u' && Lower('c') == 'c'
  {
  }
}

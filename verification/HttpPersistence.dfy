/**
 * Whether a connection goes on behind a message, by what its first line and its Connection lines say (section 6.3 of
 * RFC 7230).
 */
module HttpPersistence {
  import opened Basics
  import opened HttpChars
  import opened HttpParserTypes
  import opened HttpParserStep
  import opened HttpHeaderNames
  import opened HttpHeaderValues
  import opened HttpHeaders
  import opened HttpHeaderFraming
  import opened HttpStartLines

  /** A Connection line names the option, and it is heard. */
  predicate LineSays(l: Line, w: seq<char>) {
    IsConnection(LowerCase(l.name)) && l.v != [] && Named(Heard(OptionsOf(l.v), true), w)
  }

  predicate Said(lines: seq<Line>, w: seq<char>) {
    exists i :: 0 <= i < |lines| && LineSays(lines[i], w)
  }

  lemma SaidStep(l: Line, lines: seq<Line>, w: seq<char>)
    ensures Said([l] + lines, w) <==> LineSays(l, w) || Said(lines, w)
  {
    hide LineSays;
    var all := [l] + lines;
    assert all[0] == l;
    if i :| 0 <= i < |lines| && LineSays(lines[i], w) {
      assert all[i + 1] == lines[i];
    }
  }

  lemma ConnectionNames(n: seq<char>)
    ensures IsConnection(n) ==> n != TRANSFER_ENCODING
  {
  }

  /** What a line does to the two flags. */
  lemma LineOptions(f: Flags, l: Line)
    ensures var g := LineFlags(f, LowerCase(l.name), l.v);
            && (g.close <==> f.close || LineSays(l, CLOSE))
            && (g.keepAlive <==> f.keepAlive || LineSays(l, KEEP_ALIVE))
  {
    hide Heard, OptionsOf, Named, Names, LowerCase, WithOptions, IsConnection;
    ConnectionNames(LowerCase(l.name));
    if l.v != [] {
      OptionFlags(f, Heard(OptionsOf(l.v), true));
    }
  }

  lemma OptionFlags(f: Flags, options: seq<seq<char>>)
    ensures var g := WithOptions(f, options);
            && (g.close <==> f.close || Named(options, CLOSE))
            && (g.keepAlive <==> f.keepAlive || Named(options, KEEP_ALIVE))
  {
    hide Named;
  }

  /** The two flags behind all the lines. */
  lemma {:induction false} ToldOptions(f: Flags, length: nat, lines: seq<Line>)
    requires AllAcceptable(f, lines)
    ensures var t := Told(f, length, lines);
            && (t.0.close <==> f.close || Said(lines, CLOSE))
            && (t.0.keepAlive <==> f.keepAlive || Said(lines, KEEP_ALIVE))
    decreases |lines|
  {
    hide LineFlags, LineLength, LowerCase, Acceptable, LineSays;
    if lines != [] {
      var n, v := LowerCase(lines[0].name), lines[0].v;
      LineOptions(f, lines[0]);
      ToldOptions(LineFlags(f, n, v), LineLength(length, n, v), lines[1..]);
      assert lines == [lines[0]] + lines[1..];
      SaidStep(lines[0], lines[1..], CLOSE);
      SaidStep(lines[0], lines[1..], KEEP_ALIVE);
    }
  }

  /** A version with neither number zero: HTTP/1.1, and the like. */
  predicate IsLater(major: char, minor: char) {
    major != '0' && minor != '0'
  }

  /** The message leaves the connection open: a later version without close, or any other with keep-alive. */
  predicate KeepsOpen(start: StartLine, lines: seq<Line>) {
    if IsLater(start.major, start.minor) then !Said(lines, CLOSE) else Said(lines, KEEP_ALIVE)
  }

  /** Where the parser is behind a message: before the next one, or at the end. */
  function NextState(start: StartLine, lines: seq<Line>, framing: Framing): State {
    if framing.UntilClose? then BodyIdentityEof
    else if !KeepsOpen(start, lines) then Dead
    else if start.RequestStart? then StartReq
    else StartRes
  }

  /** The end of a message with an end. */
  lemma NextIsNew(c: Core, start: StartLine, lines: seq<Line>)
    requires start.Fits() && c.major == DigitValue(start.major) && c.minor == DigitValue(start.minor)
    requires (c.kind.Request? <==> start.RequestStart?)
    requires c.flags.close == Said(lines, CLOSE) && c.flags.keepAlive == Said(lines, KEEP_ALIVE)
    requires c.kind.Request? || Bodiless(c) || c.flags.skipBody || c.flags.chunked || c.contentLength != ULLONG_MAX
    ensures NewMessage(c) == NextState(start, lines, NoBody)
  {
    hide Said;
  }

  // ---------------------------------------------------------------- what the standard says

  /** The options of all Connection lines, none of them missed. */
  predicate Listed(lines: seq<Line>, w: seq<char>) {
    exists i :: 0 <= i < |lines| && lines[i].Is(CONNECTION) && ListsOption(lines[i].v, w)
  }

  predicate ListsOption(v: seq<char>, w: seq<char>) {
    exists i :: 0 <= i < |Members(Elements(v, [], false))| && Spells(Members(Elements(v, [], false))[i], w)
  }

  predicate Spells(b: seq<char>, w: seq<char>) {
    |b| == |w| && Names(b, w)
  }

  /** A connection goes on after HTTP/1.1 and later unless close is listed, and after HTTP/1.0 only with keep-alive. */
  predicate StandardKeepsOpen(start: StartLine, lines: seq<Line>) {
    !Listed(lines, CLOSE) &&
    ((start.major == '1' && start.minor == '0' && Listed(lines, KEEP_ALIVE)) || '1' < start.major ||
     (start.major == '1' && start.minor != '0'))
  }

  /**
   * The parser keeps the connection open as the standard has it if and only if: with version 0, no keep-alive is
   * heard; with 1.1 and others that end in no zero, close is heard exactly when it is listed; with 1.0, keep-alive is
   * heard exactly when it is listed without close; and with 2.0 and later ones that end in a zero, keep-alive is heard
   * exactly when close is not listed.
   */
  lemma PersistenceIff(start: StartLine, lines: seq<Line>)
    requires start.Fits()
    ensures KeepsOpen(start, lines) == StandardKeepsOpen(start, lines) <==>
            if start.major == '0' then !Said(lines, KEEP_ALIVE)
            else if start.minor != '0' then Said(lines, CLOSE) == Listed(lines, CLOSE)
            else if start.major == '1' then
              Said(lines, KEEP_ALIVE) == (Listed(lines, KEEP_ALIVE) && !Listed(lines, CLOSE))
            else Said(lines, KEEP_ALIVE) != Listed(lines, CLOSE)
  {
    hide Said, Listed;
  }
}

/**
 * The incremental header-name matcher against its specification: which header a name is, compared as a whole and
 * without regard to case.
 */
module HttpHeaderNames {
  import opened Basics
  import opened HttpChars
  import opened HttpParserTypes
  import opened HttpParserStep
  import opened HttpParserFeed

  predicate IsName(name: seq<char>) {
    name != [] && forall i :: 0 <= i < |name| ==> IsToken(name[i])
  }

  function LowerCase(name: seq<char>): (l: seq<char>)
    ensures |l| == |name|
    ensures forall i :: 0 <= i < |name| ==> l[i] == Token(name[i])
  {
    seq(|name|, i requires 0 <= i < |name| => Token(name[i]))
  }

  /** The matcher's state (and index) are what the lower-cased name read so far says. */
  predicate Knows(h: HState, index: nat, n: seq<char>) {
    && (h.C? <==> n == "c")
    && (h.CO? <==> n == "co")
    && (h.CON? <==> n == "con")
    && (h.MatchingConnection? <==> 4 <= |n| < 10 && n <= CONNECTION)
    && (h.MatchingContentLength? <==> 4 <= |n| < 14 && n <= CONTENT_LENGTH)
    && (h.MatchingProxyConnection? <==> 1 <= |n| < 16 && n <= PROXY_CONNECTION)
    && (h.MatchingTransferEncoding? <==> 1 <= |n| < 17 && n <= TRANSFER_ENCODING)
    && (h.MatchingUpgrade? <==> 1 <= |n| < 7 && n <= UPGRADE)
    && (h.Connection? <==> n == CONNECTION || n == PROXY_CONNECTION)
    && (h.ContentLength? <==> n == CONTENT_LENGTH)
    && (h.TransferEncoding? <==> n == TRANSFER_ENCODING)
    && (h.Upgrade? <==> n == UPGRADE)
    && IsFieldHState(h)
    && (!h.General? && !h.Connection? && !h.ContentLength? && !h.TransferEncoding? && !h.Upgrade? ==> index == |n| - 1)
  }

  lemma PrefixStep(n: seq<char>, t: char, w: seq<char>)
    ensures n + [t] <= w <==> n <= w && |n| < |w| && t == w[|n|]
  {
  }

  lemma PrefixSteps(n: seq<char>, t: char)
    ensures n + [t] <= CONNECTION <==> n <= CONNECTION && |n| < 10 && t == CONNECTION[|n|]
    ensures n + [t] <= CONTENT_LENGTH <==> n <= CONTENT_LENGTH && |n| < 14 && t == CONTENT_LENGTH[|n|]
    ensures n + [t] <= PROXY_CONNECTION <==> n <= PROXY_CONNECTION && |n| < 16 && t == PROXY_CONNECTION[|n|]
    ensures n + [t] <= TRANSFER_ENCODING <==> n <= TRANSFER_ENCODING && |n| < 17 && t == TRANSFER_ENCODING[|n|]
    ensures n + [t] <= UPGRADE <==> n <= UPGRADE && |n| < 7 && t == UPGRADE[|n|]
  {
    PrefixStep(n, t, CONNECTION);
    PrefixStep(n, t, CONTENT_LENGTH);
    PrefixStep(n, t, PROXY_CONNECTION);
    PrefixStep(n, t, TRANSFER_ENCODING);
    PrefixStep(n, t, UPGRADE);
  }

  lemma KnowsStart(t: char)
    ensures Knows(FieldHState(t), 0, [t])
  {
    PrefixSteps([], t);
    assert [] + [t] == [t];
  }

  lemma KnowsConnectionStep(h: HState, index: nat, n: seq<char>, t: char)
    requires 1 <= |n| && Knows(h, index, n) && t != NUL && h.MatchingConnection?
    ensures Knows(FieldChar(h, index, t).0, FieldChar(h, index, t).1, n + [t])
  {
    PrefixSteps(n, t);
  }

  lemma KnowsContentLengthStep(h: HState, index: nat, n: seq<char>, t: char)
    requires 1 <= |n| && Knows(h, index, n) && t != NUL && h.MatchingContentLength?
    ensures Knows(FieldChar(h, index, t).0, FieldChar(h, index, t).1, n + [t])
  {
    PrefixSteps(n, t);
  }

  lemma KnowsProxyStep(h: HState, index: nat, n: seq<char>, t: char)
    requires 1 <= |n| && Knows(h, index, n) && t != NUL && h.MatchingProxyConnection?
    ensures Knows(FieldChar(h, index, t).0, FieldChar(h, index, t).1, n + [t])
  {
    PrefixSteps(n, t);
  }

  lemma KnowsTransferStep(h: HState, index: nat, n: seq<char>, t: char)
    requires 1 <= |n| && Knows(h, index, n) && t != NUL && h.MatchingTransferEncoding?
    ensures Knows(FieldChar(h, index, t).0, FieldChar(h, index, t).1, n + [t])
  {
    PrefixSteps(n, t);
  }

  lemma KnowsUpgradeStep(h: HState, index: nat, n: seq<char>, t: char)
    requires 1 <= |n| && Knows(h, index, n) && t != NUL && h.MatchingUpgrade?
    ensures Knows(FieldChar(h, index, t).0, FieldChar(h, index, t).1, n + [t])
  {
    PrefixSteps(n, t);
  }

  lemma KnowsStep(h: HState, index: nat, n: seq<char>, t: char)
    requires 1 <= |n| && Knows(h, index, n) && t != NUL
    ensures Knows(FieldChar(h, index, t).0, FieldChar(h, index, t).1, n + [t])
  {
    if h.MatchingConnection? {
      hide Knows;
      KnowsConnectionStep(h, index, n, t);
    } else if h.MatchingContentLength? {
      hide Knows;
      KnowsContentLengthStep(h, index, n, t);
    } else if h.MatchingProxyConnection? {
      hide Knows;
      KnowsProxyStep(h, index, n, t);
    } else if h.MatchingTransferEncoding? {
      hide Knows;
      KnowsTransferStep(h, index, n, t);
    } else if h.MatchingUpgrade? {
      hide Knows;
      KnowsUpgradeStep(h, index, n, t);
    } else {
      PrefixSteps(n, t);
    }
  }

  /** The header state names the known header that n is, and no other name leads to it. */
  predicate Recognises(h: HState, n: seq<char>) {
    && (h.ContentLength? <==> n == "content-length")
    && (h.TransferEncoding? <==> n == "transfer-encoding")
    && (h.Connection? <==> n == "connection" || n == "proxy-connection")
    && (h.Upgrade? <==> n == "upgrade")
  }

  lemma KnowsFinal(h: HState, index: nat, n: seq<char>)
    requires Knows(h, index, n)
    ensures Recognises(h, n) && IsFieldHState(h)
  {
  }

  /** What one token character does in the two states that read a name. */
  lemma NameByte(cfg: Settings, c: Core, ch: char)
    requires IsToken(ch)
    ensures c.state.HeaderFieldStart? ==>
              Dispatch(cfg, c, ch) == Keep(c.(index := 0, header := FieldHState(Token(ch))), HeaderField, Field)
    ensures c.state.HeaderField? ==>
              var r := FieldChar(c.header, c.index, Token(ch));
              Dispatch(cfg, c, ch) == Keep(c.(header := r.0, index := r.1), HeaderField, Field)
  {
  }

  lemma LowerStep(name: seq<char>, p: nat)
    requires IsName(name) && p < |name|
    ensures LowerCase(name[..p]) + [Token(name[p])] == LowerCase(name[..p + 1]) && Token(name[p]) != NUL
  {
  }

  lemma {:induction false} FeedNameTail(cfg: Settings, c: Core, name: seq<char>, p: nat)
    requires IsName(name) && 1 <= p <= |name| && c.state.HeaderField? && Knows(c.header, c.index, LowerCase(name[..p]))
    ensures var f := Feed(cfg, c, name, p);
            !f.stopped && Knows(f.core.header, f.core.index, LowerCase(name)) &&
            f.core == c.(header := f.core.header, index := f.core.index) && f.events == DataEvents(Field, name[p..])
    decreases |name| - p
  {
    hide Dispatch, Feed, Slips, SlipsAt, FieldChar, Knows, LowerCase, Token;
    if p == |name| {
      NothingLeft(cfg, c, name);
      assert name[..p] == name;
    } else {
      NameByte(cfg, c, name[p]);
      FeedAdvance(cfg, c, name, p);
      LowerStep(name, p);
      KnowsStep(c.header, c.index, LowerCase(name[..p]), Token(name[p]));
      FeedNameTail(cfg, Dispatch(cfg, c, name[p]).core, name, p + 1);
      assert [Data(Field, name[p])] + DataEvents(Field, name[p + 1..]) == DataEvents(Field, name[p..]);
    }
  }

  /**
   * Reading a header name: it is handed over byte by byte, and the matcher ends in the state of a known header exactly
   * when the lower-cased name is that header.
   */
  lemma NameRecognised(cfg: Settings, c: Core, name: seq<char>)
    requires IsName(name) && c.state.HeaderFieldStart?
    ensures var f := Feed(cfg, c, name, 0); var n := LowerCase(name);
            && !f.stopped && f.core.state.HeaderField? && f.events == DataEvents(Field, name)
            && f.core == c.(state := HeaderField, header := f.core.header, index := f.core.index)
            && Recognises(f.core.header, n) && IsFieldHState(f.core.header)
  {
    hide Dispatch, Feed, Slips, SlipsAt, FieldChar, Knows, FieldHState, Recognises, IsFieldHState, Token;
    NameByte(cfg, c, name[0]);
    var c1 := c.(state := HeaderField, index := 0, header := FieldHState(Token(name[0])));
    assert Feed(cfg, c, name, 0) == After([Data(Field, name[0])], Feed(cfg, c1, name, 1)) by {
      FeedAdvance(cfg, c, name, 0);
    }
    KnowsStart(Token(name[0]));
    assert LowerCase(name[..1]) == [Token(name[0])];
    FeedNameTail(cfg, c1, name, 1);
    assert [Data(Field, name[0])] + DataEvents(Field, name[1..]) == DataEvents(Field, name);
    var f := Feed(cfg, c1, name, 1);
    KnowsFinal(f.core.header, f.core.index, LowerCase(name));
  }
}

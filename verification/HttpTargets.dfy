/**
 * The targets of requests: the URL automaton of the parser accepts exactly those of a grammar.
 */
module HttpTargets {
  import opened HttpChars
  import opened HttpParserTypes
  import opened HttpParserStep
  import opened HttpUrlGrammar
  import opened HttpUrl
  import opened HttpStartLines

  /** The authority as the parser reads it: no two '@' next to each other. */
  predicate ServerText(url: seq<char>, h: nat, j: nat) {
    h <= j <= |url| && forall k :: h <= k < j ==>
      (IsUserInfoChar(url[k]) || url[k] == '[' || url[k] == ']' || url[k] == '@') &&
      (h < k && url[k - 1] == '@' ==> url[k] != '@')
  }

  /** Behind a schema, or at once in the target of a CONNECT. */
  predicate ServerBegins(isConnect: bool, url: seq<char>, h: nat) {
    if isConnect then h == 0 else SchemaBefore(url, h)
  }

  /** A target with an authority between h and j, which may be missing when a path or a query follows. */
  predicate ServerTarget(isConnect: bool, url: seq<char>, h: nat, j: nat) {
    ServerBegins(isConnect, url, h) && ServerText(url, h, j) && Tail(url, j, |url|) && h < |url|
  }

  ghost predicate TargetText(isConnect: bool, url: seq<char>) {
    (!isConnect && PathOnly(url, |url|)) || exists h: nat, j: nat :: ServerTarget(isConnect, url, h, j)
  }

  // ---------------------------------------------------------------- the automaton, character by character

  function TargetStart(isConnect: bool): State {
    if isConnect then ReqServerStart else ReqSpacesBeforeUrl
  }

  function RunTo(s: State, url: seq<char>, p: nat): State
    requires p <= |url|
  {
    if p == 0 then s else ParseUrlChar(RunTo(s, url, p - 1), url[p - 1])
  }

  lemma {:induction false} RunOn(s: State, url: seq<char>, p: nat)
    requires p <= |url|
    ensures UrlRun(s, url) == UrlRun(RunTo(s, url, p), url[p..])
    decreases p
  {
    hide ParseUrlChar;
    if p == 0 {
      assert url[0..] == url;
    } else {
      RunOn(s, url, p - 1);
      assert url[p - 1..][1..] == url[p..];
    }
  }

  /** What has been read in each state. */
  predicate Reads(isConnect: bool, url: seq<char>, p: nat, s: State, h: nat, j: nat) {
    p <= |url| &&
    match s
    case ReqSpacesBeforeUrl => p == 0 && !isConnect
    case ReqSchema => 0 < p && !isConnect && forall k :: 0 <= k < p ==> IsAlpha(url[k])
    case ReqSchemaSlash => 1 < p && !isConnect && url[p - 1] == ':' && forall k :: 0 <= k < p - 1 ==> IsAlpha(url[k])
    case ReqSchemaSlashSlash =>
      2 < p && !isConnect && url[p - 2] == ':' && url[p - 1] == '/' && forall k :: 0 <= k < p - 2 ==> IsAlpha(url[k])
    case ReqServerStart => ServerBegins(isConnect, url, p)
    case ReqServer => ServerBegins(isConnect, url, h) && h < p && ServerText(url, h, p) && url[p - 1] != '@'
    case ReqServerWithAt => ServerBegins(isConnect, url, h) && h < p && ServerText(url, h, p) && url[p - 1] == '@'
    case _ =>
      InTail(s) &&
      ((!isConnect && PathOnly(url, p)) ||
       (ServerBegins(isConnect, url, h) && ServerText(url, h, j) && j < p && Tail(url, j, p)))
  }

  lemma ReadsServer(isConnect: bool, url: seq<char>, p: nat, s: State, h: nat, j: nat)
    requires p < |url| && Reads(isConnect, url, p, s, h, j) && !ParseUrlChar(s, url[p]).Dead?
    requires InServer(s) || s.ReqServerStart?
    ensures var h' := if s.ReqServerStart? then p else h; var s' := ParseUrlChar(s, url[p]);
            Reads(isConnect, url, p + 1, s', h', if InTail(s') then p else j)
  {
  }

  lemma ReadsTail(isConnect: bool, url: seq<char>, p: nat, s: State, h: nat, j: nat)
    requires p < |url| && Reads(isConnect, url, p, s, h, j) && !ParseUrlChar(s, url[p]).Dead? && InTail(s)
    ensures Reads(isConnect, url, p + 1, ParseUrlChar(s, url[p]), h, j)
  {
  }

  lemma ReadsSchema(isConnect: bool, url: seq<char>, p: nat, s: State, h: nat, j: nat)
    requires p < |url| && Reads(isConnect, url, p, s, h, j) && !ParseUrlChar(s, url[p]).Dead?
    requires s.ReqSpacesBeforeUrl? || s.ReqSchema? || s.ReqSchemaSlash? || s.ReqSchemaSlashSlash?
    ensures Reads(isConnect, url, p + 1, ParseUrlChar(s, url[p]), h, j)
  {
  }

  lemma DeadFrom(ch: char)
    ensures ParseUrlChar(Dead, ch).Dead?
  {
  }

  lemma {:induction false} ReadsUpTo(isConnect: bool, url: seq<char>, p: nat) returns (h: nat, j: nat)
    requires p <= |url| && !RunTo(TargetStart(isConnect), url, p).Dead?
    ensures Reads(isConnect, url, p, RunTo(TargetStart(isConnect), url, p), h, j)
    decreases p
  {
    hide ParseUrlChar, Reads;
    var start := TargetStart(isConnect);
    if p == 0 {
      h, j := 0, 0;
      ReadsNothing(isConnect, url);
    } else {
      DeadFrom(url[p - 1]);
      h, j := ReadsUpTo(isConnect, url, p - 1);
      var s := RunTo(start, url, p - 1);
      ReadsSome(isConnect, url, p - 1, s, h, j);
      if InServer(s) || s.ReqServerStart? {
        ReadsServer(isConnect, url, p - 1, s, h, j);
        h := if s.ReqServerStart? then p - 1 else h;
        j := if InTail(ParseUrlChar(s, url[p - 1])) then p - 1 else j;
      } else if InTail(s) {
        ReadsTail(isConnect, url, p - 1, s, h, j);
      } else {
        ReadsSchema(isConnect, url, p - 1, s, h, j);
      }
    }
  }

  lemma ReadsNothing(isConnect: bool, url: seq<char>)
    ensures Reads(isConnect, url, 0, TargetStart(isConnect), 0, 0)
  {
  }

  lemma ReadsSome(isConnect: bool, url: seq<char>, p: nat, s: State, h: nat, j: nat)
    requires Reads(isConnect, url, p, s, h, j)
    ensures InServer(s) || s.ReqServerStart? || InTail(s) || s.ReqSpacesBeforeUrl? || s.ReqSchema? ||
            s.ReqSchemaSlash? || s.ReqSchemaSlashSlash?
  {
  }

  /** Where the automaton is after p characters of a target with an authority. */
  predicate Comes(isConnect: bool, url: seq<char>, h: nat, j: nat, p: nat, s: State)
    requires p <= |url| && ServerTarget(isConnect, url, h, j)
  {
    if p < h then
      s == if p == 0 then ReqSpacesBeforeUrl else if p <= h - 3 then ReqSchema
           else if p == h - 2 then ReqSchemaSlash else ReqSchemaSlashSlash
    else if p == h then s.ReqServerStart?
    else if p <= j then InServer(s) && (s.ReqServerWithAt? <==> url[p - 1] == '@')
    else InTail(s)
  }

  lemma ComesSchema(isConnect: bool, url: seq<char>, h: nat, j: nat, p: nat, s: State)
    requires p < h <= |url| && ServerTarget(isConnect, url, h, j) && Comes(isConnect, url, h, j, p, s)
    ensures Comes(isConnect, url, h, j, p + 1, ParseUrlChar(s, url[p]))
  {
  }

  lemma ComesServer(isConnect: bool, url: seq<char>, h: nat, j: nat, p: nat, s: State)
    requires h <= p < j && ServerTarget(isConnect, url, h, j) && Comes(isConnect, url, h, j, p, s)
    ensures Comes(isConnect, url, h, j, p + 1, ParseUrlChar(s, url[p]))
  {
    hide ParseUrlChar;
    ServerGoesOn(s, url[p]);
  }

  lemma TailBegins(s: State, ch: char)
    requires s.ReqServerStart? && (ch == '/' || ch == '?')
    ensures InTail(ParseUrlChar(s, ch))
  {
  }

  lemma ComesTail(isConnect: bool, url: seq<char>, h: nat, j: nat, p: nat, s: State)
    requires j <= p < |url| && ServerTarget(isConnect, url, h, j) && Comes(isConnect, url, h, j, p, s)
    ensures Comes(isConnect, url, h, j, p + 1, ParseUrlChar(s, url[p]))
  {
    hide ParseUrlChar;
    if p == j && s.ReqServerStart? {
      TailBegins(s, url[p]);
    } else {
      TailGoesOn(s, url[p]);
    }
  }

  lemma {:induction false} ComesTo(isConnect: bool, url: seq<char>, h: nat, j: nat, p: nat)
    requires p <= |url| && ServerTarget(isConnect, url, h, j)
    ensures Comes(isConnect, url, h, j, p, RunTo(TargetStart(isConnect), url, p))
    decreases p
  {
    hide ParseUrlChar, ServerTarget;
    if p == 0 {
      ComesFirst(isConnect, url, h, j);
    } else {
      ComesTo(isConnect, url, h, j, p - 1);
      var s := RunTo(TargetStart(isConnect), url, p - 1);
      Bounds(isConnect, url, h, j);
      if p - 1 < h {
        ComesSchema(isConnect, url, h, j, p - 1, s);
      } else if p - 1 < j {
        ComesServer(isConnect, url, h, j, p - 1, s);
      } else {
        ComesTail(isConnect, url, h, j, p - 1, s);
      }
    }
  }

  lemma Bounds(isConnect: bool, url: seq<char>, h: nat, j: nat)
    requires ServerTarget(isConnect, url, h, j)
    ensures h <= j <= |url|
  {
  }

  lemma ComesFirst(isConnect: bool, url: seq<char>, h: nat, j: nat)
    requires ServerTarget(isConnect, url, h, j)
    ensures Comes(isConnect, url, h, j, 0, TargetStart(isConnect))
  {
  }

  /** A path is read in the states of the tail. */
  lemma {:induction false} PathTo(url: seq<char>, p: nat)
    requires 0 < p <= |url| && PathOnly(url, |url|)
    ensures InTail(RunTo(ReqSpacesBeforeUrl, url, p))
    decreases p
  {
    hide ParseUrlChar;
    if p == 1 {
      PathBegins(url[0]);
      assert RunTo(ReqSpacesBeforeUrl, url, 0).ReqSpacesBeforeUrl?;
    } else {
      PathTo(url, p - 1);
      TailGoesOn(RunTo(ReqSpacesBeforeUrl, url, p - 1), url[p - 1]);
    }
  }

  lemma PathBegins(ch: char)
    requires ch == '/' || ch == '*'
    ensures InTail(ParseUrlChar(ReqSpacesBeforeUrl, ch))
  {
  }

  /** What the automaton of the parser takes for a target is exactly what the grammar says. */
  lemma TargetIff(isConnect: bool, url: seq<char>)
    ensures IsTarget(isConnect, url) <==> TargetText(isConnect, url)
  {
    hide ParseUrlChar;
    var start := TargetStart(isConnect);
    var n := |url|;
    RunOn(start, url, n);
    assert url[n..] == [];
    var s := RunTo(start, url, n);
    if IsTarget(isConnect, url) {
      var h, j := ReadsUpTo(isConnect, url, n);
      if InServer(s) {
        assert ServerTarget(isConnect, url, h, n);
      } else if !PathOnly(url, n) || isConnect {
        assert ServerTarget(isConnect, url, h, j);
      }
    }
    if !isConnect && PathOnly(url, n) {
      PathTo(url, n);
    }
    if h: nat, j: nat :| ServerTarget(isConnect, url, h, j) {
      ComesTo(isConnect, url, h, j, n);
    }
  }
}

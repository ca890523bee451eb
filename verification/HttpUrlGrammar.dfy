/**
 * Which URLs there are: the grammar of http_parser_parse_url and http_parse_host, and the automaton of the authority.
 */
module HttpUrlGrammar {
  import opened Basics
  import opened HttpChars
  import HttpNumbers

  predicate IsAddressChar(ch: char) {
    IsHex(ch) || ch == ':' || ch == '.'
  }

  /** Section 2 of RFC 6874, loosely. */
  predicate IsZoneChar(ch: char) {
    IsAlphaNum(ch) || ch == '%' || ch == '.' || ch == '-' || ch == '_' || ch == '~'
  }

  /** The characters of an address in brackets and of its zone, written out. */
  lemma LiteralTable(c: char)
    ensures IsAddressChar(c) <==> c in LOWER_HEX || c in UPPER_HEX || c in ":."
    ensures IsZoneChar(c) <==> IsLetter(c) || c in DIGITS || c in "%.-_~"
  {
    UrlTable(c);
    Letters(c);
    var x, z := ":.", "%.-_~";
    assert x[0] == ':' && x[1] == '.';
    assert z[0] == '%' && z[1] == '.' && z[2] == '-' && z[3] == '_' && z[4] == '~';
  }

  // ---------------------------------------------------------------- the automaton of the authority

  datatype HostState =
    | HostDead | UserInfoStart | UserInfoRun | HostStart | V6Start | HostRun | V6Run | V6End | V6ZoneStart | V6Zone
    | PortStart | PortRun

  function ParseHostChar(s: HostState, ch: char): HostState {
    match s
    case UserInfoRun => UserInfoChar(ch)
    case UserInfoStart => UserInfoChar(ch)
    case HostStart => if ch == '[' then V6Start else if IsHostChar(ch) then HostRun else HostDead
    case HostRun => if IsHostChar(ch) then HostRun else if ch == ':' then PortStart else HostDead
    case V6End => if ch == ':' then PortStart else HostDead
    case V6Run =>
      if ch == ']' then V6End
      else if IsAddressChar(ch) then V6Run
      else if ch == '%' then V6ZoneStart else HostDead
    case V6Start => if IsAddressChar(ch) then V6Run else HostDead
    case V6Zone => if ch == ']' then V6End else ZoneStep(ch)
    case V6ZoneStart => ZoneStep(ch)
    case PortRun => if IsNum(ch) then PortRun else HostDead
    case PortStart => if IsNum(ch) then PortRun else HostDead
    case HostDead => HostDead
  }

  function UserInfoChar(ch: char): HostState {
    if ch == '@' then HostStart else if IsUserInfoChar(ch) then UserInfoRun else HostDead
  }

  function ZoneStep(ch: char): HostState {
    if IsZoneChar(ch) then V6Zone else HostDead
  }

  /** The states in which a host must not end. */
  predicate EndsBadly(s: HostState) {
    match s
    case HostRun | V6End | PortRun | HostDead => false
    case _ => true
  }

  // ---------------------------------------------------------------- the grammar of the authority

  /** Where an authority comes apart: its host begins, the address in brackets ends, and the host ends. */
  datatype Cut = Cut(host: nat, zone: nat, port: nat)

  /** Nothing, or user information and an '@'. */
  predicate UserPart(a: seq<char>, c: Cut) {
    c.host == 0 ||
    (c.host <= |a| && a[c.host - 1] == '@' && forall k :: 0 <= k < c.host - 1 ==> IsUserInfoChar(a[k]))
  }

  predicate HostName(a: seq<char>, c: Cut) {
    c.host == c.zone < c.port <= |a| && forall k :: c.host <= k < c.port ==> IsHostChar(a[k])
  }

  /** An address in brackets, with or without a zone. */
  predicate Literal(a: seq<char>, c: Cut) {
    && c.host + 1 < c.zone < c.port <= |a|
    && a[c.host] == '[' && a[c.port - 1] == ']' && (forall k :: c.host < k < c.zone ==> IsAddressChar(a[k]))
    && (c.zone == c.port - 1 || InZone(a, c.zone, c.port - 1))
  }

  predicate InZone(a: seq<char>, z: nat, p: nat) {
    z + 1 < p <= |a| && a[z] == '%' && forall k :: z < k < p ==> IsZoneChar(a[k])
  }

  /** Nothing, or a colon and at least one digit. */
  predicate PortPart(a: seq<char>, c: Cut) {
    c.port == |a| ||
    (c.port + 1 < |a| && a[c.port] == ':' && forall k :: c.port < k < |a| ==> IsNum(a[k]))
  }

  predicate Authority(a: seq<char>, c: Cut) {
    UserPart(a, c) && (HostName(a, c) || Literal(a, c)) && PortPart(a, c)
  }

  /** The state of the automaton after p characters of an authority. */
  function StateAt(a: seq<char>, c: Cut, p: nat): HostState
    requires Authority(a, c) && p <= |a|
  {
    if p < c.host then if p == 0 then UserInfoStart else UserInfoRun
    else if p == c.host then HostStart
    else if c.host == c.zone && p <= c.port then HostRun
    else if p == c.host + 1 then V6Start
    else if p <= c.zone then V6Run
    else if p < c.port then if p == c.zone + 1 then V6ZoneStart else V6Zone
    else if p == c.port then V6End
    else if p == c.port + 1 then PortStart
    else PortRun
  }

  lemma StateFollows(a: seq<char>, c: Cut, p: nat)
    requires Authority(a, c) && p < |a|
    ensures ParseHostChar(StateAt(a, c, p), a[p]) == StateAt(a, c, p + 1)
    ensures !StateAt(a, c, p + 1).HostDead?
  {
  }

  lemma StateBegins(a: seq<char>, c: Cut)
    requires Authority(a, c)
    ensures StateAt(a, c, 0) == if 0 < c.host then UserInfoStart else HostStart
  {
  }

  lemma StateEnds(a: seq<char>, c: Cut)
    requires Authority(a, c)
    ensures !EndsBadly(StateAt(a, c, |a|))
  {
  }

  /** What the automaton has read in each state, and the part of the cut that is settled by then. */
  predicate Read(a: seq<char>, c: Cut, p: nat, s: HostState) {
    && p <= |a|
    && (s.UserInfoStart? || s.UserInfoRun? || UserPart(a, c))
    && match s
       case UserInfoStart => p == 0
       case UserInfoRun => 0 < p && forall k :: 0 <= k < p ==> IsUserInfoChar(a[k])
       case HostStart => p == c.host
       case HostRun => HostName(a, c.(port := p))
       case V6Start => p == c.host + 1 && a[c.host] == '['
       case V6Run => InAddress(a, c.host, p)
       case V6ZoneStart => c.zone + 1 == p && a[c.zone] == '%' && InAddress(a, c.host, c.zone)
       case V6Zone => InZone(a, c.zone, p) && InAddress(a, c.host, c.zone)
       case V6End => p == c.port && Literal(a, c)
       case PortStart => p == c.port + 1 && a[c.port] == ':' && (HostName(a, c) || Literal(a, c))
       case PortRun =>
         c.port + 1 < p && a[c.port] == ':' && (HostName(a, c) || Literal(a, c)) &&
         forall k :: c.port < k < p ==> IsNum(a[k])
       case HostDead => false
  }

  predicate InAddress(a: seq<char>, h: nat, p: nat) {
    h + 1 < p <= |a| && a[h] == '[' && forall k :: h < k < p ==> IsAddressChar(a[k])
  }

  /** The cut after character number p has taken the automaton from s to s'. */
  function CutAfter(c: Cut, s: HostState, s': HostState, p: nat): Cut {
    match s'
    case HostStart => c.(host := p + 1)
    case HostRun => c.(zone := c.host)
    case V6ZoneStart => c.(zone := p)
    case V6End => if s.V6Run? then c.(zone := p, port := p + 1) else c.(port := p + 1)
    case PortStart => c.(port := p)
    case _ => c
  }

  lemma ReadFollows(a: seq<char>, c: Cut, p: nat, s: HostState)
    requires Read(a, c, p, s) && p < |a| && !ParseHostChar(s, a[p]).HostDead?
    ensures Read(a, CutAfter(c, s, ParseHostChar(s, a[p]), p), p + 1, ParseHostChar(s, a[p]))
  {
  }

  /** The cut of a whole authority. */
  function WholeCut(c: Cut, s: HostState, p: nat): Cut {
    if s.HostRun? then c.(port := p) else c
  }

  lemma ReadEnds(a: seq<char>, c: Cut, s: HostState)
    requires Read(a, c, |a|, s) && !EndsBadly(s)
    ensures Authority(a, WholeCut(c, s, |a|))
  {
  }

  /** The characters of an authority: the only '@' is the one before its host. */
  lemma AuthorityChars(a: seq<char>, c: Cut, k: nat)
    requires Authority(a, c) && k < |a|
    ensures a[k] == '@' <==> k + 1 == c.host
    ensures IsUserInfoChar(a[k]) || a[k] == '[' || a[k] == ']' || a[k] == '@'
  {
  }

  lemma ZoneUnique(a: seq<char>, c: Cut, d: Cut)
    requires Literal(a, c) && Literal(a, d) && c.host == d.host
    ensures c == d
  {
    assert !IsAddressChar(a[c.zone]) && !IsAddressChar(a[d.zone]);
    assert !IsZoneChar(a[c.port - 1]) && !IsZoneChar(a[d.port - 1]);
  }

  /** An authority comes apart in one way only. */
  lemma CutUnique(a: seq<char>, c: Cut, d: Cut)
    requires Authority(a, c) && Authority(a, d)
    ensures c == d
  {
    if 0 < c.host {
      AuthorityChars(a, d, c.host - 1);
    }
    if 0 < d.host {
      AuthorityChars(a, c, d.host - 1);
    }
    assert c.host == d.host;
    if Literal(a, c) && Literal(a, d) {
      ZoneUnique(a, c, d);
    } else {
      assert HostName(a, c) && HostName(a, d);
      assert c.port < |a| ==> !IsHostChar(a[c.port]);
      assert d.port < |a| ==> !IsHostChar(a[d.port]);
    }
  }

  // ---------------------------------------------------------------- the grammar of a URL

  predicate IsTailChar(ch: char) {
    IsUrlChar(ch) || ch == '?' || ch == '#'
  }

  /** Nothing, or a path or a query with all that follows it: url[j..p]. */
  predicate Tail(url: seq<char>, j: nat, p: nat) {
    j <= p <= |url| &&
    (j == p || ((url[j] == '/' || url[j] == '?') && forall k :: j <= k < p ==> IsTailChar(url[k])))
  }

  /** A URL without an authority. */
  predicate PathOnly(url: seq<char>, p: nat) {
    0 < p <= |url| && (url[0] == '/' || url[0] == '*') && forall k :: 0 < k < p ==> IsTailChar(url[k])
  }

  /** Letters and "://" before h. */
  predicate SchemaBefore(url: seq<char>, h: nat) {
    3 < h <= |url| && url[h - 3] == ':' && url[h - 2] == '/' && url[h - 1] == '/' &&
    forall k :: 0 <= k < h - 3 ==> IsAlpha(url[k])
  }

  /** Where the authority begins and ends, and how it comes apart. */
  datatype Split = Split(server: nat, tail: nat, cut: Cut)

  /** A URL with an authority, behind a schema; the target of a CONNECT has none. */
  predicate Served(url: seq<char>, isConnect: bool, x: Split) {
    && x.server < x.tail <= |url|
    && (if isConnect then x.server == 0 else SchemaBefore(url, x.server))
    && Authority(url[x.server..x.tail], x.cut)
    && Tail(url, x.tail, |url|)
  }

  predicate PortFits(url: seq<char>, isConnect: bool, x: Split)
    requires Served(url, isConnect, x)
  {
    var p := x.server + x.cut.port;
    p < x.tail ==> HttpNumbers.Decimal(0, url[p + 1..x.tail]) < 0x1_0000
  }

  /** Nothing, or a question mark and number signs: url[j..p]. */
  predicate BareTail(url: seq<char>, j: nat, p: nat) {
    j <= p <= |url| && (j == p || (url[j] == '?' && forall k :: j < k < p ==> url[k] == '#'))
  }

  /** What is taken as the target of a CONNECT: a host and a port, and delimiters of fields that stay empty. */
  predicate ConnectTarget(url: seq<char>, x: Split) {
    x.cut.host <= 1 && x.cut.port < x.tail && BareTail(url, x.tail, |url|)
  }

  ghost predicate Accepted(url: seq<char>, isConnect: bool) {
    || (!isConnect && (url == [] || PathOnly(url, |url|)))
    || exists x :: Served(url, isConnect, x) && PortFits(url, isConnect, x) && (isConnect ==> ConnectTarget(url, x))
  }

  /** What a CONNECT is meant to name: a host, a colon and a port that fits. */
  predicate NamesPort(url: seq<char>, c: Cut) {
    Authority(url, c) && c.host == 0 && c.port < |url| && HttpNumbers.Decimal(0, url[c.port + 1..]) < 0x1_0000
  }

  /** The targets taken are the ones meant, and others: exactly those with an '@' or a question mark. */
  lemma ConnectIsMeantIff(url: seq<char>)
    ensures (exists c :: NamesPort(url, c)) <==> Accepted(url, true) && '@' !in url && '?' !in url
  {
    if c :| NamesPort(url, c) {
      var x := Split(0, |url|, c);
      assert url[0..|url|] == url && url[c.port + 1..|url|] == url[c.port + 1..];
      assert Served(url, true, x) && PortFits(url, true, x) && ConnectTarget(url, x);
      forall k | 0 <= k < |url|
        ensures url[k] != '@' && url[k] != '?'
      {
        AuthorityChars(url, c, k);
      }
    }
    if Accepted(url, true) && '@' !in url && '?' !in url {
      var x :| Served(url, true, x) && PortFits(url, true, x) && ConnectTarget(url, x);
      assert url[0..x.tail][0] == url[0];
      assert x.tail == |url| && url[0..|url|] == url && url[x.cut.port + 1..|url|] == url[x.cut.port + 1..];
      assert NamesPort(url, x.cut);
    }
  }

  /** Taken as the target of a CONNECT. */
  lemma OddTarget()
    ensures Accepted("@a:1?#", true)
  {
    var url := "@a:1?#";
    var x := Split(0, 4, Cut(1, 1, 2));
    assert url[0..4] == "@a:1" && url[3..4] == "1";
    assert Authority(url[0..4], x.cut);
    assert HttpNumbers.Decimal(0, "1") == HttpNumbers.Decimal(0, "1"[..0]) * 10 + 1;
    assert Served(url, true, x) && PortFits(url, true, x) && ConnectTarget(url, x);
  }
}

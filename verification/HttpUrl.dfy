/**
 * The URL splitter: http_parser_parse_url and http_parse_host, over the URL automaton the parser itself uses.
 */
module HttpUrl {
  import opened Basics
  import opened HttpChars
  import opened HttpParserTypes
  import opened HttpParserStep
  import opened HttpUrlGrammar
  import HttpNumbers

  datatype UrlField = Schema | Host | Port | Path | Query | Fragment | UserInfo

  /** Where a field stands in a URL; not the order of the enumeration. */
  function Place(f: UrlField): nat {
    match f
    case Schema => 0
    case UserInfo => 1
    case Host => 2
    case Port => 3
    case Path => 4
    case Query => 5
    case Fragment => 6
  }

  datatype Span = Span(off: nat, len: nat)

  function End(s: Span): nat { s.off + s.len }

  /** The array field_data. */
  datatype Spans = Spans(schema: Span, host: Span, port: Span, path: Span, query: Span, fragment: Span,
                         userInfo: Span) {
    function Get(f: UrlField): Span {
      match f
      case Schema => schema
      case Host => host
      case Port => port
      case Path => path
      case Query => query
      case Fragment => fragment
      case UserInfo => userInfo
    }

    function Set(f: UrlField, s: Span): (at: Spans)
      ensures forall g :: at.Get(g) == if g == f then s else Get(g)
    {
      match f
      case Schema => this.(schema := s)
      case Host => this.(host := s)
      case Port => this.(port := s)
      case Path => this.(path := s)
      case Query => this.(query := s)
      case Fragment => this.(fragment := s)
      case UserInfo => this.(userInfo := s)
    }
  }

  predicate IsDelimiter(c: char) {
    c == ':' || c == '/' || c == '@' || c == '[' || c == ']' || c == '?' || c == '#'
  }

  predicate Inside(at: Spans, f: UrlField, i: nat) {
    at.Get(f).off <= i < End(at.Get(f))
  }

  predicate Covered(fields: set<UrlField>, at: Spans, i: nat) {
    exists f :: f in fields && Inside(at, f, i)
  }

  /** The set fields are non-empty intervals of url[..p], in the order of their places, with only delimiters between. */
  ghost predicate Layout(url: seq<char>, p: nat, fields: set<UrlField>, at: Spans)
    requires p <= |url|
  {
    && (forall f :: f in fields ==> 0 < at.Get(f).len && End(at.Get(f)) <= p)
    && (forall f, g :: f in fields && g in fields && Place(f) < Place(g) ==> End(at.Get(f)) <= at.Get(g).off)
    && (forall i :: 0 <= i < p ==> Covered(fields, at, i) || IsDelimiter(url[i]))
  }

  predicate FitsIn(s: Span, p: nat) {
    0 < s.len && End(s) <= p
  }

  /** What stands before and in each of the fields the automaton itself tells apart. */
  predicate SchemaAt(url: seq<char>, s: Span)
    requires FitsIn(s, |url|)
  {
    s.off == 0 && forall i :: 0 <= i < s.len ==> IsAlpha(url[i])
  }

  predicate PathAt(url: seq<char>, s: Span)
    requires FitsIn(s, |url|)
  {
    (url[s.off] == '/' || url[s.off] == '*') && forall i :: s.off <= i < End(s) ==> url[i] != '?' && url[i] != '#'
  }

  predicate QueryAt(url: seq<char>, s: Span)
    requires FitsIn(s, |url|)
  {
    0 < s.off && url[s.off - 1] == '?' && forall i :: s.off <= i < End(s) ==> url[i] != '#'
  }

  predicate FragmentAt(url: seq<char>, s: Span)
    requires FitsIn(s, |url|)
  {
    0 < s.off && url[s.off - 1] == '#'
  }

  predicate Anchored(url: seq<char>, fields: set<UrlField>, at: Spans) {
    && (Schema in fields ==> FitsIn(at.Get(Schema), |url|) && SchemaAt(url, at.Get(Schema)))
    && (Path in fields ==> FitsIn(at.Get(Path), |url|) && PathAt(url, at.Get(Path)))
    && (Query in fields ==> FitsIn(at.Get(Query), |url|) && QueryAt(url, at.Get(Query)))
    && (Fragment in fields ==> FitsIn(at.Get(Fragment), |url|) && FragmentAt(url, at.Get(Fragment)))
  }

  /** A schema is followed by "://". */
  predicate SchemaEnds(url: seq<char>, p: nat, at: Spans) {
    p <= |url| && var e := End(at.Get(Schema)); e + 3 <= p && url[e] == ':' && url[e + 1] == '/' && url[e + 2] == '/'
  }

  /** No field is set whose place is after k, and none that only the host splitter sets. */
  predicate UpTo(fields: set<UrlField>, k: nat) {
    && (Host in fields ==> 2 <= k)
    && (Path in fields ==> 4 <= k)
    && (Query in fields ==> 5 <= k)
    && (Fragment in fields ==> 6 <= k)
    && Port !in fields && UserInfo !in fields
  }

  /** The current field ends at p. */
  predicate EndsAt(f: UrlField, p: nat, current: Option<UrlField>, fields: set<UrlField>, at: Spans) {
    current == Some(f) && f in fields && End(at.Get(f)) == p && UpTo(fields, Place(f))
  }

  /** The fields set, and where the current one ends, in each state of the automaton after p characters. */
  predicate Shape(url: seq<char>, p: nat, s: State, current: Option<UrlField>, fields: set<UrlField>, at: Spans) {
    && p <= |url|
    && UpTo(fields, 6)
    && (current.Some? ==> current.value in fields)
    && (Schema in fields && !s.ReqSchema? && !s.ReqSchemaSlash? && !s.ReqSchemaSlashSlash? ==> SchemaEnds(url, p, at))
    && match s
       case ReqSpacesBeforeUrl => p == 0 && Schema !in fields && UpTo(fields, 0) && current.None?
       case ReqSchema => EndsAt(Schema, p, current, fields, at)
       case ReqSchemaSlash => 1 <= p && EndsAt(Schema, p - 1, current, fields, at) && url[p - 1] == ':'
       case ReqSchemaSlashSlash => 2 <= p && EndsAt(Schema, p - 2, current, fields, at) && url[p - 2] == ':' &&
         url[p - 1] == '/'
       case ReqServerStart =>
         if p == 0 then Schema !in fields && UpTo(fields, 0) && current.None?
         else 3 <= p && EndsAt(Schema, p - 3, current, fields, at)
       case ReqServer => EndsAt(Host, p, current, fields, at)
       case ReqServerWithAt => EndsAt(Host, p, current, fields, at)
       case ReqPath => EndsAt(Path, p, current, fields, at)
       case ReqQueryStringStart => 0 < p && url[p - 1] == '?' && UpTo(fields, 4)
       case ReqQueryString => EndsAt(Query, p, current, fields, at)
       case ReqFragmentStart => 0 < p && url[p - 1] == '#' && UpTo(fields, 5)
       case ReqFragment => EndsAt(Fragment, p, current, fields, at)
       case _ => false
  }

  ghost predicate Progress(url: seq<char>, p: nat, s: State, current: Option<UrlField>, fields: set<UrlField>,
                           at: Spans) {
    Shape(url, p, s, current, fields, at) && Layout(url, p, fields, at) && Anchored(url, fields, at)
  }

  /** The field a state belongs to; none for the delimiter states. */
  function FieldOf(s: State): Option<UrlField> {
    match s
    case ReqSchema => Some(Schema)
    case ReqServer => Some(Host)
    case ReqServerWithAt => Some(Host)
    case ReqPath => Some(Path)
    case ReqQueryString => Some(Query)
    case ReqFragment => Some(Fragment)
    case _ => None
  }

  /** One character: the fields after it. */
  function Extend(s': State, p: nat, current: Option<UrlField>, fields: set<UrlField>, at: Spans)
    : (set<UrlField>, Spans)
  {
    match FieldOf(s')
    case None => (fields, at)
    case Some(f) =>
      if current == Some(f) then (fields, at.Set(f, Span(at.Get(f).off, at.Get(f).len + 1)))
      else (fields + {f}, at.Set(f, Span(p, 1)))
  }

  lemma CoverStep(url: seq<char>, p: nat, fields: set<UrlField>, at: Spans, fields': set<UrlField>, at': Spans)
    requires p < |url| && forall i :: 0 <= i < p ==> Covered(fields, at, i) || IsDelimiter(url[i])
    requires forall f, i :: f in fields && 0 <= i < p && Inside(at, f, i) ==> f in fields' && Inside(at', f, i)
    requires Covered(fields', at', p) || IsDelimiter(url[p])
    ensures forall i :: 0 <= i < p + 1 ==> Covered(fields', at', i) || IsDelimiter(url[i])
  {
    forall i | 0 <= i < p + 1
      ensures Covered(fields', at', i) || IsDelimiter(url[i])
    {
      if i < p && Covered(fields, at, i) {
        var f :| f in fields && Inside(at, f, i);
        assert f in fields' && Inside(at', f, i);
      }
    }
  }

  /** The state after a character that does not reject is one the splitter expects. */
  lemma ExpectedState(s: State, ch: char)
    requires IsUrlState(s) || s.ReqSpacesBeforeUrl?
    ensures var s' := ParseUrlChar(s, ch);
            s'.Dead? || FieldOf(s').Some? || s'.ReqSchemaSlash? || s'.ReqSchemaSlashSlash? || s'.ReqServerStart? ||
            s'.ReqQueryStringStart? || s'.ReqFragmentStart?
  {
  }

  function Now(s: State, current: Option<UrlField>): Option<UrlField> {
    if FieldOf(s).Some? then FieldOf(s) else current
  }

  predicate InTail(s: State) {
    s.ReqPath? || s.ReqQueryStringStart? || s.ReqQueryString? || s.ReqFragmentStart? || s.ReqFragment?
  }

  lemma ShapeStepTail(url: seq<char>, p: nat, s: State, current: Option<UrlField>, fields: set<UrlField>, at: Spans)
    requires p < |url| && Shape(url, p, s, current, fields, at) && !ParseUrlChar(s, url[p]).Dead?
    requires FieldOf(ParseUrlChar(s, url[p])).Some?
    requires InTail(s)
    ensures var s' := ParseUrlChar(s, url[p]); var r := Extend(s', p, current, fields, at);
            Shape(url, p + 1, s', Now(s', current), r.0, r.1)
  {
  }

  lemma ShapeStepHead(url: seq<char>, p: nat, s: State, current: Option<UrlField>, fields: set<UrlField>, at: Spans)
    requires p < |url| && Shape(url, p, s, current, fields, at) && !ParseUrlChar(s, url[p]).Dead?
    requires FieldOf(ParseUrlChar(s, url[p])).Some?
    requires !InTail(s)
    ensures var s' := ParseUrlChar(s, url[p]); var r := Extend(s', p, current, fields, at);
            Shape(url, p + 1, s', Now(s', current), r.0, r.1)
  {
  }

  lemma ShapeStepField(url: seq<char>, p: nat, s: State, current: Option<UrlField>, fields: set<UrlField>, at: Spans)
    requires p < |url| && Shape(url, p, s, current, fields, at) && !ParseUrlChar(s, url[p]).Dead?
    requires FieldOf(ParseUrlChar(s, url[p])).Some?
    ensures var s' := ParseUrlChar(s, url[p]); var r := Extend(s', p, current, fields, at);
            Shape(url, p + 1, s', Now(s', current), r.0, r.1)
  {
    hide ParseUrlChar, Shape, Extend, FieldOf;
    if InTail(s) {
      ShapeStepTail(url, p, s, current, fields, at);
    } else {
      ShapeStepHead(url, p, s, current, fields, at);
    }
  }

  lemma ShapeStepOther(url: seq<char>, p: nat, s: State, current: Option<UrlField>, fields: set<UrlField>, at: Spans)
    requires p < |url| && Shape(url, p, s, current, fields, at) && !ParseUrlChar(s, url[p]).Dead?
    requires FieldOf(ParseUrlChar(s, url[p])).None?
    ensures var s' := ParseUrlChar(s, url[p]); var r := Extend(s', p, current, fields, at);
            Shape(url, p + 1, s', Now(s', current), r.0, r.1)
  {
  }

  lemma ShapeStep(url: seq<char>, p: nat, s: State, current: Option<UrlField>, fields: set<UrlField>, at: Spans)
    requires p < |url| && Shape(url, p, s, current, fields, at) && !ParseUrlChar(s, url[p]).Dead?
    ensures var s' := ParseUrlChar(s, url[p]); var r := Extend(s', p, current, fields, at);
            Shape(url, p + 1, s', Now(s', current), r.0, r.1)
  {
    hide ParseUrlChar, Shape, Extend, FieldOf;
    if FieldOf(ParseUrlChar(s, url[p])).Some? {
      ShapeStepField(url, p, s, current, fields, at);
    } else {
      ShapeStepOther(url, p, s, current, fields, at);
    }
  }

  lemma LayoutGrows(url: seq<char>, p: nat, fields: set<UrlField>, at: Spans, f: UrlField)
    requires p < |url| && Layout(url, p, fields, at) && f in fields && End(at.Get(f)) == p
    requires forall g :: g in fields ==> Place(g) <= Place(f)
    ensures Layout(url, p + 1, fields, at.Set(f, Span(at.Get(f).off, at.Get(f).len + 1)))
  {
    var at' := at.Set(f, Span(at.Get(f).off, at.Get(f).len + 1));
    assert Inside(at', f, p);
    CoverStep(url, p, fields, at, fields, at');
  }

  lemma LayoutStarts(url: seq<char>, p: nat, fields: set<UrlField>, at: Spans, f: UrlField)
    requires p < |url| && Layout(url, p, fields, at)
    requires forall g :: g in fields ==> Place(g) < Place(f)
    ensures Layout(url, p + 1, fields + {f}, at.Set(f, Span(p, 1)))
  {
    var at' := at.Set(f, Span(p, 1));
    assert Inside(at', f, p);
    CoverStep(url, p, fields, at, fields + {f}, at');
  }

  lemma LayoutSkips(url: seq<char>, p: nat, fields: set<UrlField>, at: Spans)
    requires p < |url| && Layout(url, p, fields, at) && IsDelimiter(url[p])
    ensures Layout(url, p + 1, fields, at)
  {
    CoverStep(url, p, fields, at, fields, at);
  }

  /** What the automaton guarantees of the next character: a delimiter, more of the current field, or a later field. */
  lemma NextCharacter(url: seq<char>, p: nat, s: State, current: Option<UrlField>, fields: set<UrlField>, at: Spans)
    requires p < |url| && Shape(url, p, s, current, fields, at) && !ParseUrlChar(s, url[p]).Dead?
    ensures var f := FieldOf(ParseUrlChar(s, url[p]));
            if f.None? then IsDelimiter(url[p])
            else if current == f then f.value in fields && End(at.Get(f.value)) == p && forall g :: g in fields ==>
                Place(g) <= Place(f.value)
            else forall g :: g in fields ==> Place(g) < Place(f.value)
  {
  }

  lemma LayoutStep(url: seq<char>, p: nat, s: State, current: Option<UrlField>, fields: set<UrlField>, at: Spans)
    requires p < |url| && Shape(url, p, s, current, fields, at) && !ParseUrlChar(s, url[p]).Dead?
    requires Layout(url, p, fields, at)
    ensures var s' := ParseUrlChar(s, url[p]); var r := Extend(s', p, current, fields, at);
            Layout(url, p + 1, r.0, r.1)
  {
    hide Layout, ParseUrlChar, FieldOf, Shape;
    NextCharacter(url, p, s, current, fields, at);
    var f := FieldOf(ParseUrlChar(s, url[p]));
    if f.None? {
      LayoutSkips(url, p, fields, at);
    } else if current == f {
      LayoutGrows(url, p, fields, at, f.value);
    } else {
      LayoutStarts(url, p, fields, at, f.value);
    }
  }

  lemma AnchoredSchema(url: seq<char>, p: nat, s: State, current: Option<UrlField>, fields: set<UrlField>, at: Spans)
    requires p < |url| && Shape(url, p, s, current, fields, at) && Anchored(url, fields, at)
    requires ParseUrlChar(s, url[p]).ReqSchema?
    ensures var r := Extend(ParseUrlChar(s, url[p]), p, current, fields, at); Anchored(url, r.0, r.1)
  {
  }

  lemma AnchoredPath(url: seq<char>, p: nat, s: State, current: Option<UrlField>, fields: set<UrlField>, at: Spans)
    requires p < |url| && Shape(url, p, s, current, fields, at) && Anchored(url, fields, at)
    requires ParseUrlChar(s, url[p]).ReqPath?
    ensures var r := Extend(ParseUrlChar(s, url[p]), p, current, fields, at); Anchored(url, r.0, r.1)
  {
  }

  lemma AnchoredQuery(url: seq<char>, p: nat, s: State, current: Option<UrlField>, fields: set<UrlField>, at: Spans)
    requires p < |url| && Shape(url, p, s, current, fields, at) && Anchored(url, fields, at)
    requires ParseUrlChar(s, url[p]).ReqQueryString?
    ensures var r := Extend(ParseUrlChar(s, url[p]), p, current, fields, at); Anchored(url, r.0, r.1)
  {
  }

  lemma AnchoredFragment(url: seq<char>, p: nat, s: State, current: Option<UrlField>, fields: set<UrlField>, at: Spans)
    requires p < |url| && Shape(url, p, s, current, fields, at) && Anchored(url, fields, at)
    requires ParseUrlChar(s, url[p]).ReqFragment?
    ensures var r := Extend(ParseUrlChar(s, url[p]), p, current, fields, at); Anchored(url, r.0, r.1)
  {
  }

  lemma AnchoredOther(url: seq<char>, p: nat, s: State, current: Option<UrlField>, fields: set<UrlField>, at: Spans)
    requires p < |url| && Shape(url, p, s, current, fields, at) && Anchored(url, fields, at)
    requires FieldOf(ParseUrlChar(s, url[p])).None? || FieldOf(ParseUrlChar(s, url[p])) == Some(Host)
    ensures var r := Extend(ParseUrlChar(s, url[p]), p, current, fields, at); Anchored(url, r.0, r.1)
  {
  }

  lemma AnchoredStep(url: seq<char>, p: nat, s: State, current: Option<UrlField>, fields: set<UrlField>, at: Spans)
    requires p < |url| && Shape(url, p, s, current, fields, at) && !ParseUrlChar(s, url[p]).Dead?
    requires Anchored(url, fields, at)
    ensures var s' := ParseUrlChar(s, url[p]); var r := Extend(s', p, current, fields, at);
            Anchored(url, r.0, r.1)
  {
    hide Anchored, ParseUrlChar, Shape, Extend;
    var s' := ParseUrlChar(s, url[p]);
    if s'.ReqSchema? {
      AnchoredSchema(url, p, s, current, fields, at);
    } else if s'.ReqPath? {
      AnchoredPath(url, p, s, current, fields, at);
    } else if s'.ReqQueryString? {
      AnchoredQuery(url, p, s, current, fields, at);
    } else if s'.ReqFragment? {
      AnchoredFragment(url, p, s, current, fields, at);
    } else {
      AnchoredOther(url, p, s, current, fields, at);
    }
  }

  // ---------------------------------------------------------------- the host

  predicate PortAt(url: seq<char>, s: Span)
    requires FitsIn(s, |url|)
  {
    0 < s.off && url[s.off - 1] == ':' && forall i :: s.off <= i < End(s) ==> IsNum(url[i])
  }

  predicate UserInfoAt(url: seq<char>, s: Span)
    requires FitsIn(s, |url|)
  {
    End(s) < |url| && url[End(s)] == '@' && forall i :: s.off <= i < End(s) ==> IsUserInfoChar(url[i])
  }

  /** Where the authority url[a..p] has been split, in each state: the three spans, and what was just read. */
  predicate HostShape(url: seq<char>, a: nat, p: nat, s: HostState, fields: set<UrlField>, at: Spans) {
    var user, host, port := at.Get(UserInfo), at.Get(Host), at.Get(Port);
    && a <= p <= |url|
    && (UserInfo in fields ==>
          user.off == a && 0 < user.len && End(user) <= p &&
          forall i :: a <= i < End(user) ==> IsUserInfoChar(url[i]))
    && (Port in fields <==> s.PortRun?)
    && match s
       case UserInfoStart => p == a && UserInfo !in fields
       case UserInfoRun => UserInfo in fields && End(user) == p
       case HostStart => AfterUser(url, a, p, fields, at)
       case V6Start => a < p && url[p - 1] == '[' && AfterUser(url, a, p - 1, fields, at)
       case HostRun => HostAt(url, a, p, fields, at) && End(host) == p
       case V6Run => HostAt(url, a, p, fields, at) && End(host) == p
       case V6ZoneStart => HostAt(url, a, p, fields, at) && End(host) == p
       case V6Zone => HostAt(url, a, p, fields, at) && End(host) == p
       case V6End => HostAt(url, a, p, fields, at) && End(host) + 1 == p && url[p - 1] == ']'
       case PortStart =>
         HostAt(url, a, p, fields, at) && url[p - 1] == ':' &&
         (End(host) + 1 == p || (End(host) + 2 == p && url[p - 2] == ']'))
       case PortRun =>
         HostAt(url, a, p, fields, at) && 0 < port.len && End(port) == p && End(host) < port.off &&
           url[port.off - 1] == ':' &&
         (End(host) + 1 == port.off || (End(host) + 2 == port.off && url[port.off - 2] == ']')) &&
         forall i :: port.off <= i < p ==> IsNum(url[i])
       case HostDead => false
  }

  /** The host may start at b: right at a, or after the '@' that ends the user information. */
  predicate AfterUser(url: seq<char>, a: nat, b: nat, fields: set<UrlField>, at: Spans) {
    a <= b <= |url| &&
    if b == a then UserInfo !in fields
    else url[b - 1] == '@' && if UserInfo in fields then End(at.Get(UserInfo)) + 1 == b else a + 1 == b
  }

  predicate HostAt(url: seq<char>, a: nat, p: nat, fields: set<UrlField>, at: Spans) {
    var host := at.Get(Host);
    0 < host.len && End(host) <= p <= |url| &&
    (AfterUser(url, a, host.off, fields, at) ||
     (a < host.off && url[host.off - 1] == '[' && AfterUser(url, a, host.off - 1, fields, at)))
  }

  /** One character of the authority: the fields after it. */
  function HostExtend(s: HostState, s': HostState, p: nat, fields: set<UrlField>, at: Spans): (set<UrlField>, Spans) {
    var host, user, port := at.Get(Host), at.Get(UserInfo), at.Get(Port);
    match s'
    case HostRun => (fields, at.Set(Host, Span(if s.HostRun? then host.off else p, host.len + 1)))
    case V6Run => (fields, at.Set(Host, Span(if s.V6Run? then host.off else p, host.len + 1)))
    case V6ZoneStart => (fields, at.Set(Host, Span(host.off, host.len + 1)))
    case V6Zone => (fields, at.Set(Host, Span(host.off, host.len + 1)))
    case PortRun =>
      if s.PortRun? then (fields, at.Set(Port, Span(port.off, port.len + 1)))
      else (fields + {Port}, at.Set(Port, Span(p, 1)))
    case UserInfoRun =>
      if s.UserInfoRun? then (fields, at.Set(UserInfo, Span(user.off, user.len + 1)))
      else (fields + {UserInfo}, at.Set(UserInfo, Span(p, 1)))
    case _ => (fields, at)
  }

  /** The host is still empty. */
  predicate NoHostYet(s: HostState) {
    s.UserInfoStart? || s.UserInfoRun? || s.HostStart? || s.V6Start?
  }

  predicate HostKept(url: seq<char>, a: nat, p: nat, s: HostState, s': HostState, fields: set<UrlField>, at: Spans)
    requires p < |url|
  {
    var r := HostExtend(s, s', p, fields, at);
    HostShape(url, a, p + 1, s', r.0, r.1) && (NoHostYet(s') ==> r.1.Get(Host).len == 0)
  }

  lemma UserStep(url: seq<char>, a: nat, p: nat, s: HostState, fields: set<UrlField>, at: Spans)
    requires p < |url| && HostShape(url, a, p, s, fields, at) && !ParseHostChar(s, url[p]).HostDead?
    requires NoHostYet(s) && at.Get(Host).len == 0
    ensures HostKept(url, a, p, s, ParseHostChar(s, url[p]), fields, at)
  {
  }

  lemma PortStep(url: seq<char>, a: nat, p: nat, s: HostState, fields: set<UrlField>, at: Spans)
    requires p < |url| && HostShape(url, a, p, s, fields, at) && !ParseHostChar(s, url[p]).HostDead?
    requires s.PortStart? || s.PortRun?
    ensures HostKept(url, a, p, s, ParseHostChar(s, url[p]), fields, at)
  {
  }

  lemma HostStep(url: seq<char>, a: nat, p: nat, s: HostState, fields: set<UrlField>, at: Spans)
    requires p < |url| && HostShape(url, a, p, s, fields, at) && !ParseHostChar(s, url[p]).HostDead?
    requires NoHostYet(s) ==> at.Get(Host).len == 0
    ensures HostKept(url, a, p, s, ParseHostChar(s, url[p]), fields, at)
  {
    if NoHostYet(s) {
      UserStep(url, a, p, s, fields, at);
    } else if s.PortStart? || s.PortRun? {
      PortStep(url, a, p, s, fields, at);
    }
  }

  /** The fields other than the three of the authority are as before. */
  predicate OthersKept(fields: set<UrlField>, at: Spans, fields': set<UrlField>, at': Spans) {
    forall f :: f != Host && f != Port && f != UserInfo ==> (f in fields <==> f in fields') && at.Get(f) == at'.Get(f)
  }

  /** An authority url[a..e] that has been split: its characters are in the three fields, or delimiters. */
  lemma AuthorityCovered(url: seq<char>, a: nat, e: nat, s: HostState, fields: set<UrlField>, at: Spans, i: nat)
    requires HostShape(url, a, e, s, fields, at) && !EndsBadly(s) && Host in fields && a <= i < e
    ensures Covered(fields, at, i) || IsDelimiter(url[i])
    ensures FitsIn(at.Get(Host), e) && a <= at.Get(Host).off
    ensures UserInfo in fields ==>
              FitsIn(at.Get(UserInfo), e) && at.Get(UserInfo).off == a && End(at.Get(UserInfo)) < at.Get(Host).off
    ensures Port in fields ==> FitsIn(at.Get(Port), e) && End(at.Get(Host)) < at.Get(Port).off
  {
    if UserInfo in fields && i < End(at.Get(UserInfo)) {
      assert Inside(at, UserInfo, i);
    } else if at.Get(Host).off <= i < End(at.Get(Host)) {
      assert Inside(at, Host, i);
    } else if Port in fields && at.Get(Port).off <= i {
      assert Inside(at, Port, i);
    }
  }

  /** How the fields of a whole URL change when the authority url[a..e] is split. */
  ghost predicate Splits(url: seq<char>, s: HostState, fields: set<UrlField>, at: Spans, fields': set<UrlField>,
                         at': Spans) {
    && Host in fields && Port !in fields && UserInfo !in fields && Host in fields'
    && OthersKept(fields, at, fields', at')
    && FitsIn(at.Get(Host), |url|)
    && HostShape(url, at.Get(Host).off, End(at.Get(Host)), s, fields', at') && !EndsBadly(s)
  }

  lemma OrderSplit(url: seq<char>, s: HostState, fields: set<UrlField>, at: Spans, fields': set<UrlField>, at': Spans,
                   f: UrlField, g: UrlField)
    requires Layout(url, |url|, fields, at) && Splits(url, s, fields, at, fields', at')
    requires f in fields' && g in fields' && Place(f) < Place(g)
    ensures FitsIn(at'.Get(f), |url|) && FitsIn(at'.Get(g), |url|) && End(at'.Get(f)) <= at'.Get(g).off
  {
    hide HostShape;
    var a, e := at.Get(Host).off, End(at.Get(Host));
    AuthorityCovered(url, a, e, s, fields', at', a);
    assert f in fields || f == Port || f == UserInfo;
    assert g in fields || g == Port || g == UserInfo;
  }

  lemma FitSplit(url: seq<char>, s: HostState, fields: set<UrlField>, at: Spans, fields': set<UrlField>, at': Spans,
                 f: UrlField)
    requires Layout(url, |url|, fields, at) && Splits(url, s, fields, at, fields', at') && f in fields'
    ensures FitsIn(at'.Get(f), |url|)
  {
    hide HostShape;
    var a, e := at.Get(Host).off, End(at.Get(Host));
    AuthorityCovered(url, a, e, s, fields', at', a);
    assert f in fields || f == Port || f == UserInfo;
  }

  lemma CoverSplit(url: seq<char>, s: HostState, fields: set<UrlField>, at: Spans, fields': set<UrlField>, at': Spans,
                   i: nat)
    requires Layout(url, |url|, fields, at) && Splits(url, s, fields, at, fields', at') && i < |url|
    ensures Covered(fields', at', i) || IsDelimiter(url[i])
  {
    hide HostShape;
    var a, e := at.Get(Host).off, End(at.Get(Host));
    if a <= i < e {
      AuthorityCovered(url, a, e, s, fields', at', i);
    } else if Covered(fields, at, i) {
      var f :| f in fields && Inside(at, f, i);
      assert f in fields' && Inside(at', f, i);
    }
  }

  /** Splitting the authority keeps the layout. */
  lemma LayoutSplit(url: seq<char>, s: HostState, fields: set<UrlField>, at: Spans, fields': set<UrlField>, at': Spans)
    requires Layout(url, |url|, fields, at) && Splits(url, s, fields, at, fields', at')
    ensures Layout(url, |url|, fields', at')
  {
    hide Splits;
    forall f | f in fields'
      ensures 0 < at'.Get(f).len && End(at'.Get(f)) <= |url|
    {
      FitSplit(url, s, fields, at, fields', at', f);
    }
    forall f, g | f in fields' && g in fields' && Place(f) < Place(g)
      ensures End(at'.Get(f)) <= at'.Get(g).off
    {
      OrderSplit(url, s, fields, at, fields', at', f, g);
    }
    forall i | 0 <= i < |url|
      ensures Covered(fields', at', i) || IsDelimiter(url[i])
    {
      CoverSplit(url, s, fields, at, fields', at', i);
    }
  }

  /** The host's span in a whole authority that begins at h: without the brackets. */
  function HostSpan(h: nat, c: Cut): Span
    requires c.host == c.zone < c.port || c.host + 1 < c.zone < c.port
  {
    if c.host == c.zone then Span(h + c.host, c.port - c.host) else Span(h + c.host + 1, c.port - c.host - 2)
  }

  /** What the splitter has set after n characters of the authority a that begins at h, given its cut. */
  predicate Linked(a: seq<char>, h: nat, c: Cut, n: nat, s: HostState, fields: set<UrlField>, at: Spans) {
    && Read(a, c, n, s)
    && (UserInfo in fields <==> s.UserInfoRun? || 1 < c.host)
    && (s.UserInfoStart? || s.UserInfoRun? ==> c.host == 0)
    && (UserInfo in fields ==> at.Get(UserInfo) == Span(h, if s.UserInfoRun? then n else c.host - 1))
    && (Port in fields <==> s.PortRun?)
    && (s.PortRun? ==> at.Get(Port) == Span(h + c.port + 1, n - c.port - 1))
    && match s
       case HostRun => at.Get(Host) == Span(h + c.host, n - c.host)
       case V6Run => at.Get(Host) == Span(h + c.host + 1, n - c.host - 1)
       case V6ZoneStart => at.Get(Host) == Span(h + c.host + 1, n - c.host - 1)
       case V6Zone => at.Get(Host) == Span(h + c.host + 1, n - c.host - 1)
       case V6End => at.Get(Host) == HostSpan(h, c)
       case PortStart => at.Get(Host) == HostSpan(h, c)
       case PortRun => at.Get(Host) == HostSpan(h, c)
       case _ => at.Get(Host).len == 0
  }

  lemma LinkUser(a: seq<char>, h: nat, c: Cut, n: nat, s: HostState, fields: set<UrlField>, at: Spans)
    requires Linked(a, h, c, n, s, fields, at) && n < |a| && !ParseHostChar(s, a[n]).HostDead? && NoHostYet(s)
    ensures var s' := ParseHostChar(s, a[n]); var r := HostExtend(s, s', h + n, fields, at);
            Linked(a, h, CutAfter(c, s, s', n), n + 1, s', r.0, r.1)
  {
    ReadFollows(a, c, n, s);
  }

  lemma LinkHost(a: seq<char>, h: nat, c: Cut, n: nat, s: HostState, fields: set<UrlField>, at: Spans)
    requires Linked(a, h, c, n, s, fields, at) && n < |a| && !ParseHostChar(s, a[n]).HostDead? && !NoHostYet(s)
    ensures var s' := ParseHostChar(s, a[n]); var r := HostExtend(s, s', h + n, fields, at);
            Linked(a, h, CutAfter(c, s, s', n), n + 1, s', r.0, r.1)
  {
    ReadFollows(a, c, n, s);
  }

  lemma LinkStep(a: seq<char>, h: nat, c: Cut, n: nat, s: HostState, foundAt: bool, fields: set<UrlField>, at: Spans)
    requires Linked(a, h, c, n, s, fields, at) && n < |a| && !ParseHostChar(s, a[n]).HostDead?
    requires foundAt <==> s.UserInfoStart? || s.UserInfoRun? || 0 < c.host
    ensures var s' := ParseHostChar(s, a[n]); var r := HostExtend(s, s', h + n, fields, at);
            var c' := CutAfter(c, s, s', n);
            Linked(a, h, c', n + 1, s', r.0, r.1) && (foundAt <==> s'.UserInfoStart? || s'.UserInfoRun? || 0 < c'.host)
  {
    if NoHostYet(s) {
      LinkUser(a, h, c, n, s, fields, at);
    } else {
      LinkHost(a, h, c, n, s, fields, at);
    }
  }

  /** The three fields of an authority that begins at h. */
  predicate Apart(a: seq<char>, h: nat, c: Cut, fields: set<UrlField>, at: Spans) {
    && Authority(a, c)
    && at.Get(Host) == HostSpan(h, c)
    && (UserInfo in fields <==> 1 < c.host)
    && (UserInfo in fields ==> at.Get(UserInfo) == Span(h, c.host - 1))
    && (Port in fields <==> c.port < |a|)
    && (Port in fields ==> at.Get(Port) == Span(h + c.port + 1, |a| - c.port - 1))
  }

  /** The authorities that the host splitter can meet: with an '@', or without. */
  predicate Meets(a: seq<char>, foundAt: bool, c: Cut) {
    Authority(a, c) && (foundAt <==> 0 < c.host)
  }

  lemma LinkEnds(a: seq<char>, h: nat, c: Cut, s: HostState, foundAt: bool, fields: set<UrlField>, at: Spans)
    requires Linked(a, h, c, |a|, s, fields, at) && !EndsBadly(s)
    requires foundAt <==> s.UserInfoStart? || s.UserInfoRun? || 0 < c.host
    ensures Meets(a, foundAt, WholeCut(c, s, |a|)) && Apart(a, h, WholeCut(c, s, |a|), fields, at)
  {
    ReadEnds(a, c, s);
  }

  // ---------------------------------------------------------------- the splitter

  /** What an accepted URL comes apart into. */
  ghost predicate Taken(url: seq<char>, fields: set<UrlField>, at: Spans) {
    && Layout(url, |url|, fields, at)
    && Anchored(url, fields, at)
    && (Schema in fields ==> SchemaEnds(url, |url|, at) && Host in fields)
    && (Port in fields ==> FitsIn(at.Get(Port), |url|) && PortAt(url, at.Get(Port)))
    && (UserInfo in fields ==> FitsIn(at.Get(UserInfo), |url|) && UserInfoAt(url, at.Get(UserInfo)))
  }

  lemma SplitTaken(url: seq<char>, s: HostState, fields: set<UrlField>, at: Spans, fields': set<UrlField>, at': Spans)
    requires Layout(url, |url|, fields, at) && Anchored(url, fields, at) &&
             (Schema in fields ==> SchemaEnds(url, |url|, at))
    requires Splits(url, s, fields, at, fields', at')
    ensures Taken(url, fields', at')
  {
    LayoutSplit(url, s, fields, at, fields', at');
    if Port in fields' {
      FitSplit(url, s, fields, at, fields', at', Port);
    }
    if UserInfo in fields' {
      FitSplit(url, s, fields, at, fields', at', UserInfo);
    }
  }

  lemma HostBegins(url: seq<char>, a: nat, fields: set<UrlField>, at: Spans)
    requires a <= |url| && Port !in fields && UserInfo !in fields
    ensures HostShape(url, a, a, UserInfoStart, fields, at) && HostShape(url, a, a, HostStart, fields, at)
  {
  }

  lemma OthersStep(s: HostState, s': HostState, p: nat, fields: set<UrlField>, at: Spans)
    ensures var r := HostExtend(s, s', p, fields, at);
            OthersKept(fields, at, r.0, r.1) && (Host in fields ==> Host in r.0)
  {
  }

  /** strtoul on the digits of a port. */
  function PortNumber(url: seq<char>, s: Span): nat
    requires FitsIn(s, |url|) && PortAt(url, s)
  {
    HttpNumbers.Decimal(0, url[s.off..End(s)])
  }

  lemma TakenPort(url: seq<char>, fields: set<UrlField>, at: Spans)
    requires Taken(url, fields, at) && Port in fields
    ensures FitsIn(at.Get(Port), |url|) && PortAt(url, at.Get(Port))
  {
  }

  lemma UrlBegins(url: seq<char>, s: State, at: Spans)
    requires s.ReqServerStart? || s.ReqSpacesBeforeUrl?
    ensures Progress(url, 0, s, None, {}, at)
  {
  }

  lemma UrlStep(url: seq<char>, p: nat, s: State, current: Option<UrlField>, fields: set<UrlField>, at: Spans)
    requires p < |url| && Progress(url, p, s, current, fields, at)
    ensures IsUrlState(s) || s.ReqSpacesBeforeUrl?
    ensures var s' := ParseUrlChar(s, url[p]); var r := Extend(s', p, current, fields, at);
            !s'.Dead? ==> Progress(url, p + 1, s', Now(s', current), r.0, r.1)
  {
    hide Layout, Anchored, ParseUrlChar, Extend;
    if !ParseUrlChar(s, url[p]).Dead? {
      ShapeStep(url, p, s, current, fields, at);
      LayoutStep(url, p, s, current, fields, at);
      AnchoredStep(url, p, s, current, fields, at);
    }
  }

  /** The whole URL has been read: what is left to do is the authority, if there is one. */
  lemma UrlEnds(url: seq<char>, s: State, current: Option<UrlField>, fields: set<UrlField>, at: Spans)
    requires Progress(url, |url|, s, current, fields, at) && (Schema in fields ==> Host in fields)
    ensures Port !in fields && UserInfo !in fields && Layout(url, |url|, fields, at) && Anchored(url, fields, at)
    ensures Schema in fields ==> SchemaEnds(url, |url|, at)
    ensures Host in fields ==> FitsIn(at.Get(Host), |url|)
    ensures Host !in fields ==> Taken(url, fields, at)
  {
  }

  lemma LinkBegins(a: seq<char>, h: nat, s: HostState, fields: set<UrlField>, at: Spans)
    requires s.UserInfoStart? || s.HostStart?
    requires Port !in fields && UserInfo !in fields && at.Get(Host).len == 0
    ensures Linked(a, h, Cut(0, 0, 0), 0, s, fields, at)
  {
  }

  // ---------------------------------------------------------------- which URLs are accepted

  predicate InServer(s: State) {
    s.ReqServer? || s.ReqServerWithAt?
  }

  /** Nothing but the authority has been found. */
  predicate OnlyHost(fields: set<UrlField>) {
    Schema !in fields && Path !in fields && Query !in fields && Fragment !in fields
  }

  /** What the URL automaton has read of the authority, once there is one. */
  predicate ServerRead(url: seq<char>, isConnect: bool, p: nat, s: State, fields: set<UrlField>, h: nat, j: nat,
                       foundAt: bool) {
    && h < j <= p <= |url|
    && (if isConnect then h == 0 else SchemaBefore(url, h))
    && (foundAt <==> '@' in url[h..j])
    && (if InServer(s) then j == p else InTail(s) && j < p)
    && Tail(url, j, p)
    && (isConnect && OnlyHost(fields) ==> BareTail(url, j, p))
  }

  /** What has been read after p characters. */
  predicate Parsed(url: seq<char>, isConnect: bool, p: nat, s: State, fields: set<UrlField>, at: Spans, foundAt: bool)
  {
    && p <= |url|
    && (isConnect ==> Schema !in fields && (InServer(s) || InTail(s) || (s.ReqServerStart? && p == 0)))
    && (!isConnect && Schema !in fields ==> Host !in fields && if InTail(s) then PathOnly(url, p) else p == 0)
    && (InServer(s) ==> Host in fields)
    && (!isConnect && s.ReqServerStart? ==> SchemaBefore(url, p))
    && (if Host in fields
        then ServerRead(url, isConnect, p, s, fields, at.Get(Host).off, End(at.Get(Host)), foundAt)
        else !foundAt)
  }

  lemma SchemaRead(url: seq<char>, p: nat, s: State, current: Option<UrlField>, fields: set<UrlField>, at: Spans)
    requires p < |url| && Shape(url, p, s, current, fields, at) && Anchored(url, fields, at)
    requires ParseUrlChar(s, url[p]).ReqServerStart?
    ensures SchemaBefore(url, p + 1)
  {
  }

  lemma ServerStep(url: seq<char>, isConnect: bool, p: nat, s: State, fields: set<UrlField>, h: nat, foundAt: bool)
    requires h <= p < |url| && (InServer(s) || (s.ReqServerStart? && h == p && !foundAt))
    requires if isConnect then h == 0 else SchemaBefore(url, h)
    requires foundAt <==> '@' in url[h..p]
    requires InServer(ParseUrlChar(s, url[p]))
    ensures var s' := ParseUrlChar(s, url[p]);
            ServerRead(url, isConnect, p + 1, s', fields, h, p + 1, foundAt || s'.ReqServerWithAt?)
  {
    assert url[h..p + 1] == url[h..p] + [url[p]];
  }

  lemma TailStep(url: seq<char>, isConnect: bool, p: nat, s: State, fields: set<UrlField>, fields': set<UrlField>,
                 h: nat, j: nat, foundAt: bool)
    requires p < |url| && ServerRead(url, isConnect, p, s, fields, h, j, foundAt) && InTail(ParseUrlChar(s, url[p]))
    requires OnlyHost(fields') ==> OnlyHost(fields) && FieldOf(ParseUrlChar(s, url[p])).None? && !s.ReqPath?
    ensures ServerRead(url, isConnect, p + 1, ParseUrlChar(s, url[p]), fields', h, j, foundAt)
  {
  }

  lemma ParsedServer(url: seq<char>, isConnect: bool, p: nat, s: State, current: Option<UrlField>,
                     fields: set<UrlField>, at: Spans, foundAt: bool)
    requires p < |url| && Shape(url, p, s, current, fields, at) && Anchored(url, fields, at)
    requires Parsed(url, isConnect, p, s, fields, at, foundAt) && InServer(ParseUrlChar(s, url[p]))
    ensures var s' := ParseUrlChar(s, url[p]); var r := Extend(s', p, current, fields, at);
            Parsed(url, isConnect, p + 1, s', r.0, r.1, foundAt || s'.ReqServerWithAt?)
  {
    var h := if InServer(s) then at.Get(Host).off else p;
    var r := Extend(ParseUrlChar(s, url[p]), p, current, fields, at);
    ServerStep(url, isConnect, p, s, r.0, h, foundAt);
  }

  lemma ParsedOther(url: seq<char>, isConnect: bool, p: nat, s: State, current: Option<UrlField>, fields: set<UrlField>,
                    at: Spans, foundAt: bool)
    requires p < |url| && Shape(url, p, s, current, fields, at) && Anchored(url, fields, at)
    requires Parsed(url, isConnect, p, s, fields, at, foundAt)
    requires !ParseUrlChar(s, url[p]).Dead? && !InServer(ParseUrlChar(s, url[p]))
    ensures var s' := ParseUrlChar(s, url[p]); var r := Extend(s', p, current, fields, at);
            Parsed(url, isConnect, p + 1, s', r.0, r.1, foundAt)
  {
    var s' := ParseUrlChar(s, url[p]);
    var r := Extend(s', p, current, fields, at);
    if s'.ReqServerStart? {
      SchemaRead(url, p, s, current, fields, at);
    }
    if Host in fields {
      TailStep(url, isConnect, p, s, fields, r.0, at.Get(Host).off, End(at.Get(Host)), foundAt);
    }
  }

  lemma ParsedStep(url: seq<char>, isConnect: bool, p: nat, s: State, current: Option<UrlField>, fields: set<UrlField>,
                   at: Spans, foundAt: bool)
    requires p < |url| && Shape(url, p, s, current, fields, at) && Anchored(url, fields, at)
    requires Parsed(url, isConnect, p, s, fields, at, foundAt) && !ParseUrlChar(s, url[p]).Dead?
    ensures var s' := ParseUrlChar(s, url[p]); var r := Extend(s', p, current, fields, at);
            Parsed(url, isConnect, p + 1, s', r.0, r.1, foundAt || s'.ReqServerWithAt?)
  {
    hide Parsed, Shape, Anchored, Extend, ParseUrlChar;
    if InServer(ParseUrlChar(s, url[p])) {
      ParsedServer(url, isConnect, p, s, current, fields, at, foundAt);
    } else {
      ParsedOther(url, isConnect, p, s, current, fields, at, foundAt);
    }
  }

  /** Where the automaton is after p characters of a URL that comes apart at x. */
  predicate Expected(url: seq<char>, isConnect: bool, x: Split, p: nat, s: State, fields: set<UrlField>, at: Spans)
    requires Served(url, isConnect, x) && p <= |url|
  {
    var h, j := x.server, x.tail;
    && (if p < h then
          s == if p == 0 then ReqSpacesBeforeUrl else if p <= h - 3 then ReqSchema
               else if p == h - 2 then ReqSchemaSlash else ReqSchemaSlashSlash
        else if p == h then s.ReqServerStart?
        else if p <= j then
          InServer(s) && (s.ReqServerWithAt? <==> url[p - 1] == '@') && Host in fields && at.Get(Host) == Span(h, p - h)
        else InTail(s) && Host in fields && at.Get(Host) == Span(h, j - h))
    && (isConnect && ConnectTarget(url, x) ==>
          OnlyHost(fields) && (p > j ==> s == if p == j + 1 then ReqQueryStringStart else ReqFragmentStart))
  }

  lemma ExpectedSchema(url: seq<char>, isConnect: bool, x: Split, p: nat, s: State, current: Option<UrlField>,
                      fields: set<UrlField>, at: Spans)
    requires p < |url| && Shape(url, p, s, current, fields, at)
    requires Served(url, isConnect, x) && Expected(url, isConnect, x, p, s, fields, at) && p < x.server
    ensures !ParseUrlChar(s, url[p]).Dead?
    ensures var s' := ParseUrlChar(s, url[p]); var r := Extend(s', p, current, fields, at);
            Expected(url, isConnect, x, p + 1, s', r.0, r.1)
  {
  }

  lemma ServerGoesOn(s: State, ch: char)
    requires InServer(s) || s.ReqServerStart?
    requires IsUserInfoChar(ch) || ch == '[' || ch == ']' || (ch == '@' && !s.ReqServerWithAt?)
    ensures ParseUrlChar(s, ch) == if ch == '@' then ReqServerWithAt else ReqServer
  {
  }

  lemma TailGoesOn(s: State, ch: char)
    requires InTail(s) || (InServer(s) && (ch == '/' || ch == '?'))
    requires IsTailChar(ch)
    ensures InTail(ParseUrlChar(s, ch))
    ensures InServer(s) && ch == '?' ==> ParseUrlChar(s, ch).ReqQueryStringStart?
    ensures (s.ReqQueryStringStart? || s.ReqFragmentStart?) && ch == '#' ==> ParseUrlChar(s, ch).ReqFragmentStart?
  {
  }

  lemma ExpectedServer(url: seq<char>, isConnect: bool, x: Split, p: nat, s: State, current: Option<UrlField>,
                      fields: set<UrlField>, at: Spans)
    requires p < |url| && Shape(url, p, s, current, fields, at)
    requires Served(url, isConnect, x) && Expected(url, isConnect, x, p, s, fields, at) && x.server <= p < x.tail
    ensures !ParseUrlChar(s, url[p]).Dead?
    ensures var s' := ParseUrlChar(s, url[p]); var r := Extend(s', p, current, fields, at);
            Expected(url, isConnect, x, p + 1, s', r.0, r.1)
  {
    hide Authority, ParseUrlChar;
    var a := url[x.server..x.tail];
    assert a[p - x.server] == url[p];
    AuthorityChars(a, x.cut, p - x.server);
    if x.server < p {
      assert a[p - 1 - x.server] == url[p - 1];
      AuthorityChars(a, x.cut, p - 1 - x.server);
    }
    ServerGoesOn(s, url[p]);
  }

  lemma ExpectedTail(url: seq<char>, isConnect: bool, x: Split, p: nat, s: State, current: Option<UrlField>,
                      fields: set<UrlField>, at: Spans)
    requires p < |url| && Shape(url, p, s, current, fields, at)
    requires Served(url, isConnect, x) && Expected(url, isConnect, x, p, s, fields, at) && x.tail <= p
    ensures !ParseUrlChar(s, url[p]).Dead?
    ensures var s' := ParseUrlChar(s, url[p]); var r := Extend(s', p, current, fields, at);
            Expected(url, isConnect, x, p + 1, s', r.0, r.1)
  {
    hide Authority, ParseUrlChar, Shape;
    TailGoesOn(s, url[p]);
  }

  lemma ExpectedStep(url: seq<char>, isConnect: bool, x: Split, p: nat, s: State, current: Option<UrlField>,
                      fields: set<UrlField>, at: Spans)
    requires p < |url| && Shape(url, p, s, current, fields, at)
    requires Served(url, isConnect, x) && Expected(url, isConnect, x, p, s, fields, at)
    ensures !ParseUrlChar(s, url[p]).Dead?
    ensures var s' := ParseUrlChar(s, url[p]); var r := Extend(s', p, current, fields, at);
            Expected(url, isConnect, x, p + 1, s', r.0, r.1)
  {
    hide Shape, Served, Expected, ParseUrlChar, Extend;
    if p < x.server {
      ExpectedSchema(url, isConnect, x, p, s, current, fields, at);
    } else if p < x.tail {
      ExpectedServer(url, isConnect, x, p, s, current, fields, at);
    } else {
      ExpectedTail(url, isConnect, x, p, s, current, fields, at);
    }
  }

  /** Where the automaton is after p characters of any URL that should be accepted. */
  ghost predicate Foreseen(url: seq<char>, isConnect: bool, p: nat, s: State, fields: set<UrlField>, at: Spans) {
    && p <= |url|
    && (p == 0 ==> Schema !in fields)
    && (forall x :: Served(url, isConnect, x) ==> Expected(url, isConnect, x, p, s, fields, at))
    && (!isConnect && PathOnly(url, |url|) ==>
          Schema !in fields && if p == 0 then s.ReqSpacesBeforeUrl? else InTail(s))
  }

  lemma ForeseenStep(url: seq<char>, isConnect: bool, p: nat, s: State, current: Option<UrlField>,
                     fields: set<UrlField>, at: Spans)
    requires p < |url| && Shape(url, p, s, current, fields, at) && Foreseen(url, isConnect, p, s, fields, at)
    ensures var s' := ParseUrlChar(s, url[p]); var r := Extend(s', p, current, fields, at);
            if s'.Dead? then !Accepted(url, isConnect) else Foreseen(url, isConnect, p + 1, s', r.0, r.1)
  {
    hide Served, Expected, Shape;
    forall x | Served(url, isConnect, x)
      ensures !ParseUrlChar(s, url[p]).Dead?
      ensures var s' := ParseUrlChar(s, url[p]); var r := Extend(s', p, current, fields, at);
              Expected(url, isConnect, x, p + 1, s', r.0, r.1)
    {
      ExpectedStep(url, isConnect, x, p, s, current, fields, at);
    }
  }

  lemma BeginsForeseen(url: seq<char>, isConnect: bool, at: Spans)
    ensures var s := if isConnect then ReqServerStart else ReqSpacesBeforeUrl;
            Parsed(url, isConnect, 0, s, {}, at, false) && Foreseen(url, isConnect, 0, s, {}, at)
  {
  }

  /** Without an authority, exactly a path is accepted, or nothing at all. */
  lemma WithoutHost(url: seq<char>, isConnect: bool, s: State, fields: set<UrlField>, at: Spans, foundAt: bool)
    requires Parsed(url, isConnect, |url|, s, fields, at, foundAt) && Foreseen(url, isConnect, |url|, s, fields, at)
    requires Host !in fields
    ensures Accepted(url, isConnect) <==> !isConnect && Schema !in fields
  {
    assert |url| == 0 ==> url == [];
  }

  lemma PathSchema(url: seq<char>, isConnect: bool, s: State, fields: set<UrlField>, at: Spans)
    requires Foreseen(url, isConnect, |url|, s, fields, at)
    ensures !isConnect && (url == [] || PathOnly(url, |url|)) ==> Schema !in fields
  {
  }

  /** A URL that comes apart does so where the automaton has found its authority. */
  lemma SameServer(url: seq<char>, isConnect: bool, s: State, fields: set<UrlField>, at: Spans, foundAt: bool, x: Split)
    requires Parsed(url, isConnect, |url|, s, fields, at, foundAt) && Foreseen(url, isConnect, |url|, s, fields, at)
    requires Served(url, isConnect, x)
    ensures Host in fields && at.Get(Host) == Span(x.server, x.tail - x.server)
    ensures Meets(url[x.server..x.tail], foundAt, x.cut)
    ensures isConnect && ConnectTarget(url, x) ==> OnlyHost(fields)
  {
    var a := url[x.server..x.tail];
    assert Expected(url, isConnect, x, |url|, s, fields, at);
    if 0 < x.cut.host {
      AuthorityChars(a, x.cut, x.cut.host - 1);
    }
    if '@' in a {
      var k :| 0 <= k < |a| && a[k] == '@';
      AuthorityChars(a, x.cut, k);
    }
  }

  lemma MalformedHost(url: seq<char>, isConnect: bool, s: State, fields: set<UrlField>, at: Spans, foundAt: bool)
    requires Parsed(url, isConnect, |url|, s, fields, at, foundAt) && Foreseen(url, isConnect, |url|, s, fields, at)
    requires Host in fields && FitsIn(at.Get(Host), |url|)
    requires forall d :: !Meets(url[at.Get(Host).off..End(at.Get(Host))], foundAt, d)
    ensures !Accepted(url, isConnect)
  {
    hide Served;
    forall x | Served(url, isConnect, x)
      ensures false
    {
      SameServer(url, isConnect, s, fields, at, foundAt, x);
    }
  }

  /** The value of the port found is the value of the port of the URL. */
  lemma SamePort(url: seq<char>, isConnect: bool, x: Split, fields: set<UrlField>, at: Spans)
    requires Served(url, isConnect, x) && Apart(url[x.server..x.tail], x.server, x.cut, fields, at)
    requires Port in fields ==> FitsIn(at.Get(Port), |url|) && PortAt(url, at.Get(Port))
    ensures PortFits(url, isConnect, x) <==> (Port in fields ==> PortNumber(url, at.Get(Port)) < 0x1_0000)
  {
    if Port in fields {
      var p := x.server + x.cut.port;
      assert url[p + 1..x.tail] == url[at.Get(Port).off..End(at.Get(Port))];
    }
  }

  /** The target of a CONNECT, by the fields that are set once its authority has been split. */
  lemma TargetFields(url: seq<char>, x: Split, s: State, fields: set<UrlField>, at: Spans, foundAt: bool,
                     fields': set<UrlField>, at': Spans)
    requires Parsed(url, true, |url|, s, fields, at, foundAt) && Foreseen(url, true, |url|, s, fields, at)
    requires Served(url, true, x) && Host in fields && Host in fields' && OthersKept(fields, at, fields', at')
    requires at.Get(Host) == Span(x.server, x.tail - x.server)
    requires Apart(url[x.server..x.tail], x.server, x.cut, fields', at')
    ensures ConnectTarget(url, x) <==> fields' == {Host, Port}
  {
    if ConnectTarget(url, x) {
      SameServer(url, true, s, fields, at, foundAt, x);
      assert forall f :: f in fields' <==> f == Host || f == Port;
    } else {
      assert OnlyHost(fields) <==> OnlyHost(fields');
    }
  }

  /** With a well-formed authority, what decides are the fields set and the value of the port. */
  lemma WithHost(url: seq<char>, isConnect: bool, s: State, fields: set<UrlField>, at: Spans, foundAt: bool, cut: Cut,
                 fields': set<UrlField>, at': Spans)
    requires Parsed(url, isConnect, |url|, s, fields, at, foundAt) && Foreseen(url, isConnect, |url|, s, fields, at)
    requires Host in fields && Host in fields' && OthersKept(fields, at, fields', at')
    requires FitsIn(at.Get(Host), |url|)
    requires Apart(url[at.Get(Host).off..End(at.Get(Host))], at.Get(Host).off, cut, fields', at')
    requires Port in fields' ==> FitsIn(at'.Get(Port), |url|) && PortAt(url, at'.Get(Port))
    ensures Accepted(url, isConnect) <==>
            (isConnect ==> fields' == {Host, Port}) &&
            (Port in fields' ==> PortNumber(url, at'.Get(Port)) < 0x1_0000)
  {
    hide Foreseen, OthersKept, Authority, PortFits, PortAt, PortNumber, ConnectTarget;
    var x := Split(at.Get(Host).off, End(at.Get(Host)), cut);
    assert Served(url, isConnect, x);
    SamePort(url, isConnect, x, fields', at');
    if isConnect {
      TargetFields(url, x, s, fields, at, foundAt, fields', at');
    }
    forall y | Served(url, isConnect, y)
      ensures y == x
    {
      SameServer(url, isConnect, s, fields, at, foundAt, y);
      CutUnique(url[x.server..x.tail], x.cut, y.cut);
    }
    assert PathOnly(url, |url|) && !isConnect ==> Schema !in fields by {
      PathSchema(url, isConnect, s, fields, at);
    }
  }

  lemma SplitAccepted(url: seq<char>, isConnect: bool, s: State, fields: set<UrlField>, at: Spans, foundAt: bool,
                      last: HostState, cut: Cut, fields': set<UrlField>, at': Spans)
    requires Parsed(url, isConnect, |url|, s, fields, at, foundAt) && Foreseen(url, isConnect, |url|, s, fields, at)
    requires Splits(url, last, fields, at, fields', at') && Taken(url, fields', at')
    requires Apart(url[at.Get(Host).off..End(at.Get(Host))], at.Get(Host).off, cut, fields', at')
    ensures Port in fields' ==> FitsIn(at'.Get(Port), |url|) && PortAt(url, at'.Get(Port))
    ensures Accepted(url, isConnect) <==>
            (isConnect ==> fields' == {Host, Port}) &&
            (Port in fields' ==> PortNumber(url, at'.Get(Port)) < 0x1_0000)
  {
    hide HostShape, Parsed, Foreseen, Apart, Accepted, PortNumber, Layout, Anchored;
    WithHost(url, isConnect, s, fields, at, foundAt, cut, fields', at');
  }

  class HttpParserUrl {
    var fieldSet: set<UrlField>
    var port: nat
    var fieldData: Spans

    /**
     * http_parse_host: false when the authority is malformed. Otherwise it comes apart in the one way there is, and
     * the three fields say how.
     */
    method ParseHost(url: seq<char>, foundAt: bool) returns (ok: bool, ghost last: HostState, ghost cut: Cut)
      requires |url| < 0x1_0000 && Host in fieldSet && Port !in fieldSet && UserInfo !in fieldSet
      requires FitsIn(fieldData.Get(Host), |url|)
      modifies this
      ensures port == old(port)
      ensures ok ==> Splits(url, last, old(fieldSet), old(fieldData), fieldSet, fieldData)
      ensures var h := old(fieldData.Get(Host)); var a := url[h.off..End(h)];
              (ok ==> Meets(a, foundAt, cut) && Apart(a, h.off, cut, fieldSet, fieldData)) &&
              (!ok ==> forall d :: !Meets(a, foundAt, d))
    {
      hide HostShape, HostExtend, ParseHostChar, EndsBadly, Linked, Authority, StateAt;
      var p, end := fieldData.Get(Host).off, End(fieldData.Get(Host));
      ghost var h := p;
      ghost var a := url[h..end];
      cut := Cut(0, 0, 0);
      HostBegins(url, p, fieldSet, fieldData.Set(Host, Span(p, 0)));
      fieldData := fieldData.Set(Host, Span(p, 0));
      var s := if foundAt then UserInfoStart else HostStart;
      LinkBegins(a, h, s, fieldSet, fieldData);
      forall d | Meets(a, foundAt, d)
        ensures s == StateAt(a, d, 0)
      {
        StateBegins(a, d);
      }
      while p < end
        invariant h <= p <= end <= |url| && port == old(port)
        invariant HostShape(url, h, p, s, fieldSet, fieldData) && (NoHostYet(s) ==> fieldData.Get(Host).len == 0)
        invariant Host in fieldSet && OthersKept(old(fieldSet), old(fieldData), fieldSet, fieldData)
        invariant Linked(a, h, cut, p - h, s, fieldSet, fieldData)
        invariant foundAt <==> s.UserInfoStart? || s.UserInfoRun? || 0 < cut.host
        invariant forall d :: Meets(a, foundAt, d) ==> s == StateAt(a, d, p - h)
      {
        var s' := ParseHostChar(s, url[p]);
        forall d | Meets(a, foundAt, d)
          ensures s' == StateAt(a, d, p + 1 - h) && !s'.HostDead?
        {
          StateFollows(a, d, p - h);
        }
        if s'.HostDead? {
          return false, s, cut;
        }
        HostStep(url, h, p, s, fieldSet, fieldData);
        OthersStep(s, s', p, fieldSet, fieldData);
        LinkStep(a, h, cut, p - h, s, foundAt, fieldSet, fieldData);
        var r := HostExtend(s, s', p, fieldSet, fieldData);
        fieldSet, fieldData := r.0, r.1;
        cut := CutAfter(cut, s, s', p - h);
        s := s';
        p := p + 1;
      }
      ok, last := !EndsBadly(s), s;
      forall d | Meets(a, foundAt, d)
        ensures ok
      {
        StateEnds(a, d);
      }
      if ok {
        LinkEnds(a, h, cut, s, foundAt, fieldSet, fieldData);
        cut := WholeCut(cut, s, |a|);
      }
    }

    constructor ()
      ensures fieldSet == {} && port == 0
    {
      var none := Span(0, 0);
      fieldSet, port, fieldData := {}, 0, Spans(none, none, none, none, none, none, none);
    }

    /**
     * http_parser_parse_url, for URLs whose offsets fit 16 bits: true for exactly the URLs of the grammar. The fields
     * of an accepted URL are disjoint, in order, separated by delimiters only, and each stands where its delimiters
     * say.
     */
    method ParseUrl(url: seq<char>, isConnect: bool) returns (ok: bool)
      requires |url| < 0x1_0000
      modifies this
      ensures ok <==> Accepted(url, isConnect)
      ensures ok ==> Taken(url, fieldSet, fieldData)
      ensures ok && isConnect ==> fieldSet == {Host, Port}
      ensures ok ==> if Port in fieldSet
                     then port == PortNumber(url, fieldData.Get(Port)) < 0x1_0000
                     else port == 0
    {
      hide Shape, Layout, Anchored, ParseUrlChar, FieldOf, Extend, HostShape, Splits, Taken, PortAt, Parsed, Foreseen,
           Accepted, Apart, PortNumber;
      port, fieldSet := 0, {};
      var s := if isConnect then ReqServerStart else ReqSpacesBeforeUrl;
      var current: Option<UrlField> := None;
      var foundAt := false;
      UrlBegins(url, s, fieldData);
      BeginsForeseen(url, isConnect, fieldData);
      var p := 0;
      while p < |url|
        invariant p <= |url| && port == 0 && Progress(url, p, s, current, fieldSet, fieldData)
        invariant Parsed(url, isConnect, p, s, fieldSet, fieldData, foundAt)
        invariant Foreseen(url, isConnect, p, s, fieldSet, fieldData)
      {
        UrlStep(url, p, s, current, fieldSet, fieldData);
        ExpectedState(s, url[p]);
        ForeseenStep(url, isConnect, p, s, current, fieldSet, fieldData);
        var s' := ParseUrlChar(s, url[p]);
        if s'.Dead? {
          return false;
        }
        ParsedStep(url, isConnect, p, s, current, fieldSet, fieldData, foundAt);
        s := s';
        // the "Unexpected state" arm of the splitter is not reached
        assert FieldOf(s).Some? || s.ReqSchemaSlash? || s.ReqSchemaSlashSlash? || s.ReqServerStart? ||
               s.ReqQueryStringStart? || s.ReqFragmentStart?;
        foundAt := foundAt || s.ReqServerWithAt?;
        var r := Extend(s, p, current, fieldSet, fieldData);
        fieldSet, fieldData := r.0, r.1;
        current := Now(s, current);
        p := p + 1;
      }
      ghost var fields, at := fieldSet, fieldData;
      if Host !in fieldSet {
        WithoutHost(url, isConnect, s, fields, at, foundAt);
      }
      if Schema in fieldSet && Host !in fieldSet {
        return false;
      }
      UrlEnds(url, s, current, fields, at);
      if Host in fieldSet {
        ghost var last, cut;
        ok, last, cut := ParseHost(url, foundAt);
        if !ok {
          MalformedHost(url, isConnect, s, fields, at, foundAt);
          return false;
        }
        SplitTaken(url, last, fields, at, fieldSet, fieldData);
        SplitAccepted(url, isConnect, s, fields, at, foundAt, last, cut, fieldSet, fieldData);
      }
      if isConnect && fieldSet != {Host, Port} {
        return false;
      }
      if Port in fieldSet {
        TakenPort(url, fieldSet, fieldData);
        var v := PortNumber(url, fieldData.Get(Port));
        if v > 0xffff {
          return false;
        }
        port := v;
      }
      ok := true;
    }
  }
}

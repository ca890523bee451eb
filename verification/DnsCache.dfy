/**
 * The DNS cache of dns/DNSCache.cpp: a shared table with up to eight probes for a host, and a process-local map that
 * takes the updates made while the table's lock could not be had. Hosts are compared as the code compares them, by the
 * bytes of one of them, and the host buffer of a node is written without a terminator.
 */
module DnsCache {
  import opened Basics

  const HASH_NODENUM: nat := 65536
  const HOST_MAXLENGTH: nat := 256

  /** The sixteen bytes of a key as the eight table offsets they are read as. */
  type Slots = s: seq<nat> | |s| == 8 && forall i :: 0 <= i < 8 ==> s[i] < HASH_NODENUM
    witness seq(8, _ => 0)

  datatype Node = Node(host: seq<char>, addr: string, expiredAt: int)

  datatype Record = Record(addr: string, expiredAt: int)

  /** An address given for a host by an update, and when it expires. */
  datatype Given = Given(host: string, addr: string, expiredAt: int)

  // ---------------------------------------------------------------- the probes

  /** getNextHashkey, whose count runs past the key at eight and then starts again. */
  function NextHashkey(slots: Slots, cnt: nat): nat {
    var start := cnt * 2;
    if start > 16 || start + 1 > 16 then slots[0] else slots[cnt]
  }

  /** How many probes are made: up to the first that comes back to the first slot. */
  function ProbesFrom(slots: Slots, k: nat): (n: nat)
    requires 1 <= k <= 8
    ensures k <= n <= 8
    decreases 8 - k
  {
    if k == 8 || slots[k] == slots[0] then k else ProbesFrom(slots, k + 1)
  }

  function Probes(slots: Slots): (n: nat)
    ensures 1 <= n <= 8
  {
    ProbesFrom(slots, 1)
  }

  lemma {:induction false} ProbesEnd(slots: Slots, k: nat, from: nat)
    requires 1 <= from <= k <= Probes(slots) && ProbesFrom(slots, from) == Probes(slots)
    ensures k < Probes(slots) <==> NextHashkey(slots, k) != slots[0]
    decreases k - from
  {
    if from < k {
      ProbesEnd(slots, k, from + 1);
    }
  }

  /** The slots probed for a key. */
  function ProbeSet(slots: Slots): set<nat> {
    set k | 0 <= k < Probes(slots) :: slots[k]
  }

  /** No slot is probed for both keys. */
  predicate Apart(a: Slots, b: Slots) {
    ProbeSet(a) !! ProbeSet(b)
  }

  predicate IsUsed(node: Node, now: int) {
    !(node.expiredAt < now)
  }

  /** memcmp(node.host_, host, strlen(host)) == 0 */
  predicate StartsWith(buffer: seq<char>, host: string) {
    |host| <= |buffer| && buffer[..|host|] == host
  }

  /** memcpy(node.host_, host, strlen(host)) */
  function Overlay(buffer: seq<char>, host: string): (b: seq<char>)
    requires |host| <= |buffer|
    ensures |b| == |buffer| && StartsWith(b, host)
  {
    host + buffer[|host|..]
  }

  predicate Hits(node: Node, host: string, now: int) {
    IsUsed(node, now) && StartsWith(node.host, host)
  }

  predicate Takes(node: Node, host: string, now: int) {
    !IsUsed(node, now) || StartsWith(node.host, host)
  }

  /** The first of the probes from k on that hits. */
  function FirstHit(nodes: seq<Node>, slots: Slots, host: string, now: int, k: nat): (i: Option<nat>)
    requires |nodes| == HASH_NODENUM && k <= Probes(slots)
    ensures i.Some? ==> k <= i.value < Probes(slots) && Hits(nodes[slots[i.value]], host, now)
    decreases 8 - k
  {
    if k == Probes(slots) then None
    else if Hits(nodes[slots[k]], host, now) then Some(k)
    else FirstHit(nodes, slots, host, now, k + 1)
  }

  /** The first of the probes from k on that takes the host. */
  function FirstTaker(nodes: seq<Node>, slots: Slots, host: string, now: int, k: nat): (i: Option<nat>)
    requires |nodes| == HASH_NODENUM && k <= Probes(slots)
    ensures i.Some? ==> k <= i.value < Probes(slots) && Takes(nodes[slots[i.value]], host, now)
    ensures i.None? ==> forall j :: k <= j < Probes(slots) ==> !Takes(nodes[slots[j]], host, now)
    decreases 8 - k
  {
    if k == Probes(slots) then None
    else if Takes(nodes[slots[k]], host, now) then Some(k)
    else FirstTaker(nodes, slots, host, now, k + 1)
  }

  /** The first k probes' oldest, the earliest of several. */
  function Oldest(nodes: seq<Node>, slots: Slots, k: nat): (of: nat)
    requires |nodes| == HASH_NODENUM && 1 <= k <= 8
    ensures of in slots[..k]
    ensures forall j :: 0 <= j < k ==> nodes[of].expiredAt <= nodes[slots[j]].expiredAt
  {
    if k == 1 then slots[0]
    else
      var of := Oldest(nodes, slots, k - 1);
      if nodes[slots[k - 1]].expiredAt < nodes[of].expiredAt then slots[k - 1] else of
  }

  /** Where a record for the host goes. */
  function Target(nodes: seq<Node>, slots: Slots, host: string, now: int): (of: nat)
    requires |nodes| == HASH_NODENUM
    ensures of < HASH_NODENUM && of in slots[..Probes(slots)] && of in ProbeSet(slots)
  {
    var taker := FirstTaker(nodes, slots, host, now, 0);
    if taker.Some? then slots[taker.value] else Oldest(nodes, slots, Probes(slots))
  }

  /** The first eight bytes of a host, behind whose terminator there may be anything. */
  function FirstEight(host: string, behind: seq<char>): (eight: seq<char>)
    requires |behind| >= 8
    ensures |eight| == 8 && (host != [] ==> eight[0] == host[0])
  {
    (host + [NUL] + behind)[..8]
  }

  /** updateNode's "no need to update": the same first eight bytes, and a later expiry than the new one. */
  predicate NoNeed(node: Node, host: string, behind: seq<char>, expiredAt: int)
    requires |behind| >= 8
  {
    |node.host| >= 8 && node.host[..8] == FirstEight(host, behind) && expiredAt < node.expiredAt
  }

  /**
   * When an update is not needed, and the record stays: it expires later than the update would, and its host begins
   * with the eight bytes at the host that is updated, or, when that host is shorter, with the host, its terminator and
   * what stands behind it.
   */
  lemma NoNeedIff(node: Node, host: string, behind: seq<char>, expiredAt: int)
    requires |behind| >= 8 && |node.host| == HOST_MAXLENGTH
    ensures |host| >= 8 ==>
              (NoNeed(node, host, behind, expiredAt) <==>
               expiredAt < node.expiredAt && StartsWith(node.host, host[..8]))
    ensures |host| < 8 ==>
              (NoNeed(node, host, behind, expiredAt) <==>
               expiredAt < node.expiredAt && StartsWith(node.host, host) && node.host[|host|] == NUL &&
               node.host[|host| + 1..8] == behind[..7 - |host|])
  {
    if |host| >= 8 {
      assert FirstEight(host, behind) == host[..8];
    } else {
      var eight := FirstEight(host, behind);
      assert eight == host + [NUL] + behind[..7 - |host|];
      assert node.host[..8] == node.host[..|host|] + [node.host[|host|]] + node.host[|host| + 1..8];
    }
  }

  function Updated(node: Node, host: string, addr: string, expiredAt: int): Node
    requires |host| <= |node.host|
  {
    Node(Overlay(node.host, host), addr, expiredAt)
  }

  /** The table after DNS2Shared. */
  function Stored(nodes: seq<Node>, slots: Slots, host: string, addr: string, expiredAt: int, now: int,
                  behind: seq<char>): (t: seq<Node>)
    requires |nodes| == HASH_NODENUM && |host| <= HOST_MAXLENGTH && |behind| >= 8
    requires forall i :: 0 <= i < |nodes| ==> |nodes[i].host| == HOST_MAXLENGTH
    ensures IsTable(t)
  {
    var of := Target(nodes, slots, host, now);
    if NoNeed(nodes[of], host, behind, expiredAt) then nodes
    else nodes[of := Updated(nodes[of], host, addr, expiredAt)]
  }

  /** A record on its way to the table, with what stands in memory behind its host. */
  datatype Storing = Storing(host: string, addr: string, expiredAt: int, behind: seq<char>) {
    predicate Fits() {
      |host| <= HOST_MAXLENGTH && |behind| >= 8
    }
  }

  predicate AllFit(entries: seq<Storing>) {
    forall i :: 0 <= i < |entries| ==> entries[i].Fits()
  }

  predicate IsTable(nodes: seq<Node>) {
    |nodes| == HASH_NODENUM && forall i :: 0 <= i < |nodes| ==> |nodes[i].host| == HOST_MAXLENGTH
  }

  /** The table after records have been stored one after the other. */
  function StoredAll(nodes: seq<Node>, slotsOf: string -> Slots, entries: seq<Storing>, now: int): (t: seq<Node>)
    requires IsTable(nodes) && AllFit(entries)
    ensures IsTable(t)
  {
    if entries == [] then nodes
    else
      var t := StoredAll(nodes, slotsOf, entries[..|entries| - 1], now);
      var e := entries[|entries| - 1];
      Stored(t, slotsOf(e.host), e.host, e.addr, e.expiredAt, now, e.behind)
  }

  lemma StoredNothing(nodes: seq<Node>, slotsOf: string -> Slots, now: int)
    requires IsTable(nodes)
    ensures StoredAll(nodes, slotsOf, [], now) == nodes
  {
  }

  lemma StoredOneMore(nodes: seq<Node>, slotsOf: string -> Slots, entries: seq<Storing>, e: Storing, now: int)
    requires IsTable(nodes) && AllFit(entries) && e.Fits()
    ensures AllFit(entries + [e])
    ensures StoredAll(nodes, slotsOf, entries + [e], now) ==
            Stored(StoredAll(nodes, slotsOf, entries, now), slotsOf(e.host), e.host, e.addr, e.expiredAt, now, e.behind)
  {
    hide Stored;
    assert (entries + [e])[..|entries|] == entries;
  }

  lemma {:induction false} StoredInTurn(nodes: seq<Node>, slotsOf: string -> Slots, a: seq<Storing>, b: seq<Storing>,
                                        now: int)
    requires IsTable(nodes) && AllFit(a) && AllFit(b)
    ensures AllFit(a + b) &&
            StoredAll(nodes, slotsOf, a + b, now) == StoredAll(StoredAll(nodes, slotsOf, a, now), slotsOf, b, now)
    decreases |b|
  {
    hide Stored;
    if b == [] {
      assert a + b == a;
    } else {
      var n := |b| - 1;
      StoredInTurn(nodes, slotsOf, a, b[..n], now);
      assert (a + b)[..|a + b| - 1] == a + b[..n];
    }
  }

  lemma {:induction false} HitBehind(nodes: seq<Node>, slots: Slots, host: string, now: int, k: nat, i: nat)
    requires |nodes| == HASH_NODENUM && k <= i < Probes(slots) && Hits(nodes[slots[i]], host, now)
    requires forall j :: k <= j < i ==> slots[j] == slots[i] || !Hits(nodes[slots[j]], host, now)
    ensures var f := FirstHit(nodes, slots, host, now, k); f.Some? && slots[f.value] == slots[i]
    decreases i - k
  {
    if !Hits(nodes[slots[k]], host, now) {
      HitBehind(nodes, slots, host, now, k + 1, i);
    }
  }

  lemma {:induction false} TakerFirst(nodes: seq<Node>, slots: Slots, host: string, now: int, k: nat)
    requires |nodes| == HASH_NODENUM && k <= Probes(slots)
    ensures var f := FirstTaker(nodes, slots, host, now, k);
            f.Some? ==> forall j :: k <= j < f.value ==> !Takes(nodes[slots[j]], host, now)
    decreases 8 - k
  {
    if k < Probes(slots) && !Takes(nodes[slots[k]], host, now) {
      TakerFirst(nodes, slots, host, now, k + 1);
    }
  }

  lemma {:induction false} NoHit(nodes: seq<Node>, slots: Slots, host: string, now: int, k: nat)
    requires |nodes| == HASH_NODENUM && k <= Probes(slots)
    requires forall j :: k <= j < Probes(slots) ==> !Hits(nodes[slots[j]], host, now)
    ensures FirstHit(nodes, slots, host, now, k).None?
    decreases 8 - k
  {
    if k < Probes(slots) {
      NoHit(nodes, slots, host, now, k + 1);
    }
  }

  /** The probe of the target, with no probe of another slot before it that takes the host, or none that does at all. */
  lemma TargetProbe(nodes: seq<Node>, slots: Slots, host: string, now: int) returns (i: nat)
    requires |nodes| == HASH_NODENUM
    ensures i < Probes(slots) && slots[i] == Target(nodes, slots, host, now)
    ensures forall j :: 0 <= j < i ==> !Takes(nodes[slots[j]], host, now)
    ensures Takes(nodes[slots[i]], host, now) || forall j :: 0 <= j < Probes(slots) ==>
              !Takes(nodes[slots[j]], host, now)
  {
    TakerFirst(nodes, slots, host, now, 0);
    var taker := FirstTaker(nodes, slots, host, now, 0);
    if taker.Some? {
      i := taker.value;
    } else {
      var of := Oldest(nodes, slots, Probes(slots));
      i :| 0 <= i < Probes(slots) && slots[..Probes(slots)][i] == of;
    }
  }

  /**
   * A record that has been stored is found: the very next query for the host comes to the slot it went to, and to its
   * address.
   */
  lemma StoredIsFound(nodes: seq<Node>, slots: Slots, host: string, addr: string, expiredAt: int, now: int,
                      behind: seq<char>)
    requires |nodes| == HASH_NODENUM && |host| <= HOST_MAXLENGTH && |behind| >= 8 && now <= expiredAt
    requires forall i :: 0 <= i < |nodes| ==> |nodes[i].host| == HOST_MAXLENGTH
    requires !NoNeed(nodes[Target(nodes, slots, host, now)], host, behind, expiredAt)
    ensures var t := Stored(nodes, slots, host, addr, expiredAt, now, behind);
            var f := FirstHit(t, slots, host, now, 0);
            f.Some? && t[slots[f.value]].addr == addr && t[slots[f.value]].expiredAt == expiredAt
  {
    hide Overlay, NoNeed, FirstEight, Target, StartsWith, FirstHit, Probes;
    var of := Target(nodes, slots, host, now);
    var t := Stored(nodes, slots, host, addr, expiredAt, now, behind);
    var i := TargetProbe(nodes, slots, host, now);
    assert Hits(t[of], host, now);
    assert forall j :: 0 <= j < i ==> slots[j] == of || t[slots[j]] == nodes[slots[j]];
    HitBehind(t, slots, host, now, 0, i);
  }

  /**
   * An update is not needed when it is older than a record that starts with the same eight bytes. That record is found
   * in its place exactly when it starts with the host; otherwise the query finds nothing.
   */
  lemma NotNeededIsFound(nodes: seq<Node>, slots: Slots, host: string, addr: string, expiredAt: int, now: int,
                         behind: seq<char>)
    requires |nodes| == HASH_NODENUM && |host| <= HOST_MAXLENGTH && |behind| >= 8 && now <= expiredAt
    requires forall i :: 0 <= i < |nodes| ==> |nodes[i].host| == HOST_MAXLENGTH
    requires NoNeed(nodes[Target(nodes, slots, host, now)], host, behind, expiredAt)
    ensures var t := Stored(nodes, slots, host, addr, expiredAt, now, behind);
            var of := Target(nodes, slots, host, now);
            var f := FirstHit(t, slots, host, now, 0);
            t == nodes && (f.Some? <==> StartsWith(nodes[of].host, host)) && (f.Some? ==> slots[f.value] == of)
  {
    hide Overlay, FirstEight, Target, StartsWith, FirstHit, Probes;
    var of := Target(nodes, slots, host, now);
    var i := TargetProbe(nodes, slots, host, now);
    if StartsWith(nodes[of].host, host) {
      HitBehind(nodes, slots, host, now, 0, i);
    } else {
      NoHit(nodes, slots, host, now, 0);
    }
  }

  // ---------------------------------------------------------------- what a hit says

  /** One of two hosts begins with the other. */
  predicate Related(a: string, b: string) {
    a <= b || b <= a
  }

  /** No slot is probed for two of the hosts one of which begins with the other. */
  predicate AllApart(hosts: set<string>, slotsOf: string -> Slots) {
    forall a, b :: a in hosts && b in hosts && a != b && Related(a, b) ==> Apart(slotsOf(a), slotsOf(b))
  }

  /** A node holds what was given for a host. */
  predicate Holds(node: Node, g: Given) {
    StartsWith(node.host, g.host) && node.addr == g.addr && node.expiredAt == g.expiredAt
  }

  /** Two hosts that a buffer starts with begin with one another. */
  lemma BothStart(buffer: seq<char>, a: string, b: string)
    requires StartsWith(buffer, a) && StartsWith(buffer, b)
    ensures Related(a, b)
  {
    if |a| <= |b| {
      assert a == b[..|a|];
    } else {
      assert b == a[..|b|];
    }
  }

  /**
   * Every node is as it was at first, or holds what it was given for its author, one of whose probes it is.
   */
  ghost predicate Sourced(nodes: seq<Node>, authors: map<nat, Given>, slotsOf: string -> Slots) {
    && IsTable(nodes)
    && (forall i :: 0 <= i < HASH_NODENUM && i !in authors ==> nodes[i].expiredAt == 0)
    && (forall i :: i in authors ==> i in ProbeSet(slotsOf(authors[i].host)))
    && (forall i :: 0 <= i < HASH_NODENUM && i in authors ==> Holds(nodes[i], authors[i]))
  }

  lemma UpdatedSourced(nodes: seq<Node>, authors: map<nat, Given>, slotsOf: string -> Slots, of: nat, g: Given)
    requires Sourced(nodes, authors, slotsOf) && of < HASH_NODENUM && |g.host| <= HOST_MAXLENGTH &&
             of in ProbeSet(slotsOf(g.host))
    ensures Sourced(nodes[of := Updated(nodes[of], g.host, g.addr, g.expiredAt)], authors[of := g], slotsOf)
  {
    hide StartsWith, Overlay, ProbeSet;
  }

  lemma SourcedTable(nodes: seq<Node>, authors: map<nat, Given>, slotsOf: string -> Slots)
    requires Sourced(nodes, authors, slotsOf)
    ensures IsTable(nodes)
  {
  }

  // ---------------------------------------------------------------- when an answer is right

  /** A table without a record. */
  function EmptyTable(): (t: seq<Node>)
    ensures IsTable(t) && forall i :: 0 <= i < HASH_NODENUM ==> t[i].expiredAt == 0
  {
    var empty := Node(seq(HOST_MAXLENGTH, _ => NUL), "", 0);
    seq(HASH_NODENUM, _ => empty)
  }

  /** Records stored in an empty table at one time, under some hash function. */
  datatype Scenario = Scenario(slotsOf: string -> Slots, entries: seq<Storing>, now: int) {
    predicate Fits() {
      0 < now && AllFit(entries)
    }

    function Table(): (t: seq<Node>)
      requires Fits()
      ensures IsTable(t)
    {
      StoredAll(EmptyTable(), slotsOf, entries, now)
    }

    /** A query for q is not answered with what was given for u alone. */
    ghost predicate NotFor(q: string, u: string)
      requires Fits()
    {
      var hit := FirstHit(Table(), slotsOf(q), q, now, 0);
      hit.Some? ==> exists e :: e in entries && e.host != u && e.addr == Table()[slotsOf(q)[hit.value]].addr
    }
  }

  /**
   * Under every hash function that gives q and u these slots, and whatever is stored: the query for q is not answered
   * with u's address.
   */
  ghost predicate NeverMistaken(q: string, sq: Slots, u: string, su: Slots) {
    forall x: Scenario :: x.Fits() && x.slotsOf(q) == sq && x.slotsOf(u) == su ==> x.NotFor(q, u)
  }

  /** The authors of a table filled from the empty one are among the records stored. */
  lemma {:induction false} AuthorsStored(slotsOf: string -> Slots, entries: seq<Storing>, now: int)
    returns (authors: map<nat, Given>)
    requires AllFit(entries)
    ensures Sourced(StoredAll(EmptyTable(), slotsOf, entries, now), authors, slotsOf)
    ensures forall i :: i in authors ==>
              exists e :: e in entries && e.host == authors[i].host && e.addr == authors[i].addr
    decreases |entries|
  {
    hide Target, NoNeed, Updated, ProbeSet, Holds;
    if entries == [] {
      authors := map[];
    } else {
      var n := |entries| - 1;
      var e := entries[n];
      authors := AuthorsStored(slotsOf, entries[..n], now);
      var t := StoredAll(EmptyTable(), slotsOf, entries[..n], now);
      var of := Target(t, slotsOf(e.host), e.host, now);
      if !NoNeed(t[of], e.host, e.behind, e.expiredAt) {
        UpdatedSourced(t, authors, slotsOf, of, Given(e.host, e.addr, e.expiredAt));
        authors := authors[of := Given(e.host, e.addr, e.expiredAt)];
      }
    }
  }

  lemma ApartIsRight(x: Scenario, q: string, u: string)
    requires x.Fits() && Apart(x.slotsOf(q), x.slotsOf(u))
    ensures x.NotFor(q, u)
  {
    hide StoredAll, StartsWith, EmptyTable, Probes;
    var sq := x.slotsOf(q);
    var hit := FirstHit(x.Table(), sq, q, x.now, 0);
    if hit.Some? {
      var authors := AuthorsStored(x.slotsOf, x.entries, x.now);
      var of := sq[hit.value];
      assert of in ProbeSet(sq);
      assert of in authors;
    }
  }

  /** A host that is not the beginning of u and does not begin with it, for every number. */
  function Filler(u: string, i: nat): (w: string)
    requires 0 < |u| && i < 8
    ensures |w| == 2 && w[0] != u[0] && w[0] == if u[0] == 'x' then 'y' else 'x'
  {
    [if u[0] == 'x' then 'y' else 'x', ('0' as int + i) as char]
  }

  /** A host as long as q and like it, but for its first letter, which is none of the others'. */
  function Remains(q: string, u: string): (w: string)
    requires 0 < |q| && 0 < |u|
    ensures |w| == |q| && w[0] != u[0] && w[1..] == q[1..] && forall i: nat :: i < 8 ==> w[0] != Filler(u, i)[0]
  {
    [if u[0] == 'z' then 'a' else 'z'] + q[1..]
  }

  function OneSlotOnly(s: nat): (slots: Slots)
    requires s < HASH_NODENUM
    ensures slots[0] == slots[1] == s
  {
    seq(8, _ => s)
  }

  function FillerSlots(u: string, su: Slots, h: string): Slots
    requires 0 < |u|
  {
    if |h| == 2 && '0' <= h[1] < '8' && h == Filler(u, h[1] as int - '0' as int) then
      OneSlotOnly(su[h[1] as int - '0' as int])
    else su
  }

  /** A hash function that gives each filler one slot of u only, and the slot s to the remains of q. */
  function FillerHash(q: string, sq: Slots, u: string, su: Slots, s: nat): string -> Slots
    requires 0 < |q| && 0 < |u| && s < HASH_NODENUM
  {
    h => if h == q then sq
         else if h == u then su
         else if h == Remains(q, u) then OneSlotOnly(s)
         else FillerSlots(u, su, h)
  }

  function Fillers(u: string, n: nat): (entries: seq<Storing>)
    requires 0 < |u| && n <= 8
    ensures |entries| == n && AllFit(entries)
    ensures forall e :: e in entries ==> e.addr == "w"
  {
    if n == 0 then [] else Fillers(u, n - 1) + [Storing(Filler(u, n - 1), "w", 10, "????????")]
  }

  /** The slots of u up to n are taken by others, and nothing else is. */
  ghost predicate Filled(t: seq<Node>, u: string, su: Slots, n: nat)
    requires IsTable(t) && 0 < |u| && n <= 8
  {
    forall s :: 0 <= s < HASH_NODENUM ==>
      if s in su[..n] then t[s].expiredAt == 10 && t[s].host[0] == Filler(u, 0)[0] else t[s].expiredAt == 0
  }

  /** A key with one slot only leads there. */
  lemma OneSlot(nodes: seq<Node>, slots: Slots, host: string, now: int)
    requires |nodes| == HASH_NODENUM && slots[1] == slots[0]
    ensures Target(nodes, slots, host, now) == slots[0]
  {
    assert Probes(slots) == 1;
  }

  lemma {:induction false} FillersFill(q: string, sq: Slots, u: string, su: Slots, s: nat, n: nat)
    requires 0 < |q| && 0 < |u| && q[0] == u[0] && n <= 8 && s < HASH_NODENUM
    ensures Filled(StoredAll(EmptyTable(), FillerHash(q, sq, u, su, s), Fillers(u, n), 1), u, su, n)
    decreases n
  {
    hide Stored, EmptyTable;
    if n > 0 {
      FillersFill(q, sq, u, su, s, n - 1);
      var hash := FillerHash(q, sq, u, su, s);
      var e := Storing(Filler(u, n - 1), "w", 10, "????????");
      StoredOneMore(EmptyTable(), hash, Fillers(u, n - 1), e, 1);
      FillerStored(StoredAll(EmptyTable(), hash, Fillers(u, n - 1), 1), u, su, n - 1, e.behind);
      HashOfFiller(q, sq, u, su, s, n - 1);
    }
  }

  lemma HashOfFiller(q: string, sq: Slots, u: string, su: Slots, s: nat, i: nat)
    requires 0 < |q| && 0 < |u| && q[0] == u[0] && i < 8 && s < HASH_NODENUM
    ensures FillerHash(q, sq, u, su, s)(Filler(u, i)) == OneSlotOnly(su[i])
  {
    var h := Filler(u, i);
    assert h[1] as int - '0' as int == i;
    assert h[0] != q[0] && h[0] != u[0] && h[0] != Remains(q, u)[0];
  }

  lemma FillerStored(t: seq<Node>, u: string, su: Slots, i: nat, behind: seq<char>)
    requires IsTable(t) && 0 < |u| && i < 8 && |behind| >= 8 && Filled(t, u, su, i)
    ensures Filled(Stored(t, OneSlotOnly(su[i]), Filler(u, i), "w", 10, 1, behind), u, su, i + 1)
  {
    hide Target, StartsWith, FirstEight;
    OneSlot(t, OneSlotOnly(su[i]), Filler(u, i), 1);
    assert su[..i + 1] == su[..i] + [su[i]];
    assert !NoNeed(t[su[i]], Filler(u, i), behind, 10);
  }

  /** The slots probed for u are taken by others, that at s by the remains of q, whose record is the first to expire. */
  ghost predicate Prepared(t: seq<Node>, q: string, u: string, su: Slots, s: nat)
    requires IsTable(t) && 0 < |q| && 0 < |u| && s < HASH_NODENUM
  {
    && (forall k :: 0 <= k < HASH_NODENUM ==>
          if k == s then t[k].expiredAt == 5 && t[k].host[0] != u[0]
          else if k in su[..Probes(su)] then t[k].expiredAt == 10 && t[k].host[0] != u[0]
          else t[k].expiredAt == 0)
    && StartsWith(t[s].host, Remains(q, u))
  }

  lemma RemainsStored(t: seq<Node>, q: string, u: string, su: Slots, s: nat, behind: seq<char>)
    requires IsTable(t) && 0 < |q| <= HOST_MAXLENGTH && 0 < |u| && |behind| >= 8 && s in su[..Probes(su)]
    requires Filled(t, u, su, Probes(su))
    ensures Prepared(Stored(t, OneSlotOnly(s), Remains(q, u), "w", 5, 1, behind), q, u, su, s)
  {
    hide Target, Probes, FirstEight;
    var w := Remains(q, u);
    OneSlot(t, OneSlotOnly(s), w, 1);
    assert FirstEight(w, behind)[0] == w[0];
    assert !NoNeed(t[s], w, behind, 5);
    assert Overlay(t[s].host, w)[0] == w[0];
  }

  /** The record of u is laid over the remains of q, and the query for q comes to it. */
  lemma SharedHit(t: seq<Node>, q: string, sq: Slots, u: string, su: Slots, s: nat, behind: seq<char>)
    requires IsTable(t) && 0 < |q| <= HOST_MAXLENGTH && 0 < |u| <= HOST_MAXLENGTH && Related(q, u) && |behind| >= 8
    requires s in ProbeSet(sq) && s in su[..Probes(su)] && Prepared(t, q, u, su, s)
    ensures var t' := Stored(t, su, u, "u", 10, 1, behind); var hit := FirstHit(t', sq, q, 1, 0);
            hit.Some? && t'[sq[hit.value]].addr == "u"
  {
    hide Probes, FirstEight;
    OldestIs(t, q, u, su, s);
    assert FirstEight(u, behind)[0] == u[0];
    assert !NoNeed(t[s], u, behind, 10);
    var t' := Stored(t, su, u, "u", 10, 1, behind);
    assert t' == t[s := Updated(t[s], u, "u", 10)];
    LaidOver(t[s].host, q, u);
    assert q[0] == u[0];
    var i :| 0 <= i < Probes(sq) && sq[i] == s;
    HitBehind(t', sq, q, 1, 0, i);
  }

  /** No probe takes u, so that it goes to the oldest, at s. */
  lemma OldestIs(t: seq<Node>, q: string, u: string, su: Slots, s: nat)
    requires IsTable(t) && 0 < |q| && 0 < |u| && s in su[..Probes(su)] && Prepared(t, q, u, su, s)
    ensures Target(t, su, u, 1) == s
  {
    hide Probes, Remains;
    forall j | 0 <= j < Probes(su)
      ensures !Takes(t[su[j]], u, 1)
    {
      assert su[j] in su[..Probes(su)];
    }
    var j :| 0 <= j < Probes(su) && su[j] == s;
    assert t[Oldest(t, su, Probes(su))].expiredAt <= t[su[j]].expiredAt;
  }

  /** A host laid over a buffer that starts with the remains of q makes it start with q. */
  lemma LaidOver(buffer: seq<char>, q: string, u: string)
    requires 0 < |q| <= |buffer| && 0 < |u| <= |buffer| && Related(q, u) && StartsWith(buffer, Remains(q, u))
    ensures StartsWith(Overlay(buffer, u), q)
  {
    var b := Overlay(buffer, u);
    forall i | 0 <= i < |q|
      ensures b[i] == q[i]
    {
      if i < |u| {
        assert b[i] == u[i] == q[i];
      } else {
        assert b[i] == buffer[i] == buffer[..|q|][i] == Remains(q, u)[i] == Remains(q, u)[1..][i - 1];
      }
    }
  }

  /**
   * When one of two hosts begins with the other and a slot is probed for both, there is a run in which the query for
   * q is answered with what was given for u: others hold the slots of u, the name of q but for its first letter is in
   * the shared one, whose record is the oldest, and u is laid over it.
   */
  lemma Mistaken(q: string, sq: Slots, u: string, su: Slots) returns (x: Scenario)
    requires q != u && Related(q, u) && 0 < |q| <= HOST_MAXLENGTH && 0 < |u| <= HOST_MAXLENGTH && !Apart(sq, su)
    ensures x.Fits() && x.slotsOf(q) == sq && x.slotsOf(u) == su && !x.NotFor(q, u)
    ensures var hit := FirstHit(x.Table(), sq, q, x.now, 0); hit.Some? && x.Table()[sq[hit.value]].addr == "u"
  {
    hide StoredAll, Probes, EmptyTable, FirstEight, Filled, Prepared;
    var s :| s in ProbeSet(sq) && s in ProbeSet(su);
    assert s in su[..Probes(su)] by { var k :| 0 <= k < Probes(su) && su[k] == s; assert su[..Probes(su)][k] == s; }
    assert q[0] == u[0];
    var hash := FillerHash(q, sq, u, su, s);
    var w := Storing(Remains(q, u), "w", 5, "????????");
    var e := Storing(u, "u", 10, "????????");
    var fillers := Fillers(u, Probes(su));
    FillersFill(q, sq, u, su, s, Probes(su));
    var t := StoredAll(EmptyTable(), hash, fillers, 1);
    RemainsStored(t, q, u, su, s, w.behind);
    StoredOneMore(EmptyTable(), hash, fillers, w, 1);
    StoredOneMore(EmptyTable(), hash, fillers + [w], e, 1);
    x := Scenario(hash, fillers + [w] + [e], 1);
    SharedHit(StoredAll(EmptyTable(), hash, fillers + [w], 1), q, sq, u, su, s, e.behind);
    assert forall d :: d in x.entries && d.host != u ==> d.addr == "w";
  }

  /**
   * Of two hosts one of which begins with the other, the one is never answered with the other's address, under any hash
   * function with these slots and whatever else is stored, if and only if no slot is probed for both. It makes no
   * difference which of the two is the shorter.
   */
  lemma RightIffApart(q: string, sq: Slots, u: string, su: Slots)
    requires q != u && Related(q, u) && 0 < |q| <= HOST_MAXLENGTH && 0 < |u| <= HOST_MAXLENGTH
    ensures NeverMistaken(q, sq, u, su) <==> Apart(sq, su)
  {
    hide Apart;
    if Apart(sq, su) {
      forall x: Scenario | x.Fits() && x.slotsOf(q) == sq && x.slotsOf(u) == su
        ensures x.NotFor(q, u)
      {
        ApartIsRight(x, q, u);
      }
    } else {
      var x := Mistaken(q, sq, u, su);
      assert !x.NotFor(q, u);
    }
  }

  // ---------------------------------------------------------------- the cache

  /** The table in shared memory, with the clock, and what has been given by updates so far. */
  class SharedTable {
    const nodes: array<Node>
    const slotsOf: string -> Slots           // the MD5 key of a host
    var now: int
    ghost var given: set<Given>
    ghost var authors: map<nat, Given>

    /** Every node is as it was at first, or holds what some update gave for a host it is probed for. */
    ghost predicate Valid()
      reads this, nodes
    {
      && 0 < now && Sourced(nodes[..], authors, slotsOf) && (forall i :: i in authors ==> authors[i] in given)
    }

    constructor (now: int, slotsOf: string -> Slots)
      requires 0 < now
      ensures Valid() && fresh(nodes) && given == {} && this.now == now && this.slotsOf == slotsOf
    {
      this.now, this.slotsOf, given, authors := now, slotsOf, {}, map[];
      var empty := Node(seq(HOST_MAXLENGTH, _ => NUL), "", 0);
      nodes := new Node[HASH_NODENUM](_ => empty);
    }

    method Advance(seconds: nat)
      requires Valid()
      modifies `now
      ensures Valid() && now == old(now) + seconds
    {
      now := now + seconds;
    }

    /** Notes what an update gives. */
    ghost method Give(g: Given)
      requires Valid()
      modifies `given
      ensures Valid() && given == old(given) + {g}
    {
      given := given + {g};
    }

    /** updateNode; behind is what stands in memory behind the host's terminator. */
    method UpdateNode(of: nat, host: string, addr: string, ttl: nat, behind: seq<char>)
      requires Valid() && of < HASH_NODENUM && |host| <= HOST_MAXLENGTH && |behind| >= 8 &&
               Given(host, addr, now + ttl) in given
      requires of in ProbeSet(slotsOf(host))
      modifies nodes, `authors
      ensures Valid()
      ensures nodes[..] == if NoNeed(old(nodes[of]), host, behind, now + ttl) then old(nodes[..])
                           else old(nodes[..])[of := Updated(old(nodes[of]), host, addr, now + ttl)]
    {
      hide Overlay, NoNeed, StartsWith, Sourced, Updated;
      assert IsTable(nodes[..]) by { SourcedTable(nodes[..], authors, slotsOf); }
      var expiredAt := now + ttl;
      if NoNeed(nodes[of], host, behind, expiredAt) {
        return;
      }
      ghost var before := nodes[..];
      UpdatedSourced(before, authors, slotsOf, of, Given(host, addr, expiredAt));
      nodes[of] := Updated(nodes[of], host, addr, expiredAt);
      authors := authors[of := Given(host, addr, expiredAt)];
      assert nodes[..] == before[of := Updated(before[of], host, addr, expiredAt)];
    }
  }

  /** What stands in memory behind a string. */
  method Behind() returns (behind: seq<char>)
    ensures |behind| >= 8
  {
    behind := *;
    if |behind| < 8 {
      behind := "????????";
    }
  }

  /** Every record has been given for its host. */
  ghost predicate Justified(memory: map<string, Record>, given: set<Given>) {
    forall h :: h in memory ==> |h| <= HOST_MAXLENGTH && Given(h, memory[h].addr, memory[h].expiredAt) in given
  }

  lemma JustifiedAt(memory: map<string, Record>, given: set<Given>, h: string)
    requires Justified(memory, given) && h in memory
    ensures |h| <= HOST_MAXLENGTH && Given(h, memory[h].addr, memory[h].expiredAt) in given
  {
  }

  lemma JustifiedLess(memory: map<string, Record>, less: map<string, Record>, given: set<Given>)
    requires Justified(memory, given) && forall h :: h in less ==> h in memory && less[h] == memory[h]
    ensures Justified(less, given)
  {
  }

  /** The records of a process that have not expired, each once, in some order. */
  ghost predicate Moves(moved: seq<Storing>, memory: map<string, Record>, now: int) {
    && AllFit(moved)
    && (forall i, j :: 0 <= i < j < |moved| ==> moved[i].host != moved[j].host)
    && (forall e :: e in moved ==> e.host in memory && memory[e.host] == Record(e.addr, e.expiredAt))
    && (forall h :: h in memory ==> (now < memory[h].expiredAt <==> exists e :: e in moved && e.host == h))
  }

  /** What an update puts into the table: itself, then what the process has kept. */
  ghost predicate Settles(stored: seq<Storing>, memory: map<string, Record>, now: int, host: string, addr: string,
                          ttl: nat)
  {
    && 0 < |stored| && AllFit(stored) && stored[0] == Storing(host, addr, now + ttl, stored[0].behind)
    && Moves(stored[1..], memory, now)
  }

  lemma MovesFit(moved: seq<Storing>, memory: map<string, Record>, now: int)
    requires Moves(moved, memory, now)
    ensures AllFit(moved)
  {
  }

  lemma MovesNothing(now: int)
    ensures Moves([], map[], now)
  {
  }

  lemma MovesOne(moved: seq<Storing>, memory: map<string, Record>, now: int, e: Storing)
    requires Moves(moved, memory, now) && e.Fits() && e.host !in memory && now < e.expiredAt
    ensures Moves(moved + [e], memory[e.host := Record(e.addr, e.expiredAt)], now)
  {
    assert forall d :: d in moved + [e] <==> d in moved || d == e;
  }

  lemma MovesNot(moved: seq<Storing>, memory: map<string, Record>, now: int, host: string, record: Record)
    requires Moves(moved, memory, now) && host !in memory && record.expiredAt <= now
    ensures Moves(moved, memory[host := record], now)
  {
  }

  /** erase, on the process map. */
  function Without(memory: map<string, Record>, host: string): map<string, Record> {
    map h | h in memory && h != host :: memory[h]
  }

  lemma OneLess(was: map<string, Record>, memory: map<string, Record>, host: string)
    requires host in memory && forall h :: h in memory ==> h in was && memory[h] == was[h]
    ensures was - Without(memory, host).Keys == (was - memory.Keys)[host := memory[host]]
  {
  }

  lemma JustifiedMore(memory: map<string, Record>, given: set<Given>, more: set<Given>)
    requires Justified(memory, given) && given <= more
    ensures Justified(memory, more)
  {
  }

  /** A hit that an unexpired record explains, of the host or of one related to it with which it shares a probe. */
  ghost predicate Explained(host: string, addr: string, at: int, given: set<Given>, slotsOf: string -> Slots) {
    exists g :: g in given && g.addr == addr && at <= g.expiredAt && Related(g.host, host) &&
      !Apart(slotsOf(g.host), slotsOf(host))
  }

  /** The cache of one process: the table it shares with the others, and the updates it could not yet put there. */
  class Cache {
    const table: SharedTable
    var memory: map<string, Record>

    ghost predicate Valid()
      reads this, table, table.nodes
    {
      table.Valid() && Justified(memory, table.given)
    }

    constructor (table: SharedTable)
      requires table.Valid()
      ensures Valid() && this.table == table && memory == map[]
    {
      this.table, memory := table, map[];
    }

    /** store2Memory */
    method Store2Memory(host: string, addr: string, ttl: nat)
      requires Valid() && |host| <= HOST_MAXLENGTH
      modifies `memory, table`given
      ensures Valid() && memory == old(memory)[host := Record(addr, table.now + ttl)]
      ensures table.given == old(table.given) + {Given(host, addr, table.now + ttl)}
    {
      table.Give(Given(host, addr, table.now + ttl));
      memory := memory[host := Record(addr, table.now + ttl)];
    }

    /** The probes of DNS2Shared. */
    method FindTarget(host: string) returns (of: nat)
      requires table.Valid()
      ensures of == Target(table.nodes[..], table.slotsOf(host), host, table.now)
    {
      hide Takes;
      var slots := table.slotsOf(host);
      ghost var all := table.nodes[..];
      var todie := slots[0];
      var cnt := 0;
      of := slots[0];
      while true
        invariant 0 <= cnt < Probes(slots) && of == slots[cnt]
        invariant FirstTaker(all, slots, host, table.now, cnt) == FirstTaker(all, slots, host, table.now, 0)
        invariant todie == Oldest(all, slots, if cnt == 0 then 1 else cnt)
        decreases Probes(slots) - cnt
      {
        if Takes(table.nodes[of], host, table.now) {
          return;
        }
        if table.nodes[of].expiredAt < table.nodes[todie].expiredAt {
          todie := of;
        }
        ProbesEnd(slots, cnt + 1, 1);
        cnt := cnt + 1;
        of := NextHashkey(slots, cnt);
        if of == slots[0] {
          break;
        }
      }
      of := todie;
    }

    /** DNS2Shared, under the lock. */
    method DNS2Shared(host: string, addr: string, ttl: nat) returns (ghost e: Storing)
      requires Valid() && |host| <= HOST_MAXLENGTH && Given(host, addr, table.now + ttl) in table.given
      modifies table.nodes, table`authors
      ensures Valid() && e.Fits() && e == Storing(host, addr, table.now + ttl, e.behind)
      ensures table.nodes[..] == Stored(old(table.nodes[..]), table.slotsOf(host), host, addr, table.now + ttl,
                                        table.now, e.behind)
    {
      hide Target, NoNeed, Updated, Justified;
      var of := FindTarget(host);
      var behind := Behind();
      ghost var before := table.nodes[..];
      table.UpdateNode(of, host, addr, ttl, behind);
      e := Storing(host, addr, table.now + ttl, behind);
      assert table.nodes[..] == Stored(before, table.slotsOf(host), host, addr, table.now + ttl, table.now, behind);
    }

    /** memory2Shared, under the lock: what has not expired goes to the table, in some order, and nothing is kept. */
    method Memory2Shared() returns (ghost moved: seq<Storing>)
      requires Valid()
      modifies `memory, table.nodes, table`authors
      ensures Valid() && memory == map[]
      ensures Moves(moved, old(memory), table.now)
      ensures table.nodes[..] == StoredAll(old(table.nodes[..]), table.slotsOf, moved, table.now)
    {
      hide Stored, StoredAll, Sourced, Justified, Moves;
      SourcedTable(table.nodes[..], table.authors, table.slotsOf);
      moved := [];
      MovesNothing(table.now);
      assert old(memory) - memory.Keys == map[];
      StoredNothing(table.nodes[..], table.slotsOf, table.now);
      while memory != map[]
        invariant Valid() && AllFit(moved) && IsTable(old(table.nodes[..])) &&
                  (forall h :: h in memory ==> h in old(memory) && memory[h] == old(memory)[h])
        invariant Moves(moved, old(memory) - memory.Keys, table.now)
        invariant table.nodes[..] == StoredAll(old(table.nodes[..]), table.slotsOf, moved, table.now)
        decreases memory.Keys
      {
        var host :| host in memory;
        var record := memory[host];
        JustifiedAt(memory, table.given, host);
        ghost var m := memory;
        memory := Without(memory, host);
        JustifiedLess(m, memory, table.given);
        if record.expiredAt > table.now {
          ghost var e := DNS2Shared(host, record.addr, record.expiredAt - table.now);
          StoredOneMore(old(table.nodes[..]), table.slotsOf, moved, e, table.now);
          MovesOne(moved, old(memory) - m.Keys, table.now, e);
          moved := moved + [e];
        } else {
          MovesNot(moved, old(memory) - m.Keys, table.now, host, record);
        }
        OneLess(old(memory), m, host);
      }
      assert old(memory) - memory.Keys == old(memory);
    }

    /** updateDNS under the lock: the update goes to the table, then what the process has kept. */
    method StoreAtOnce(host: string, addr: string, ttl: nat) returns (ghost stored: seq<Storing>)
      requires Valid() && |host| <= HOST_MAXLENGTH && Given(host, addr, table.now + ttl) in table.given
      modifies `memory, table.nodes, table`authors
      ensures Valid() && memory == map[]
      ensures Settles(stored, old(memory), table.now, host, addr, ttl)
      ensures table.nodes[..] == StoredAll(old(table.nodes[..]), table.slotsOf, stored, table.now)
    {
      hide Stored, Justified, Sourced, Moves;
      ghost var nodes := table.nodes[..];
      SourcedTable(nodes, table.authors, table.slotsOf);
      ghost var e := DNS2Shared(host, addr, ttl);
      StoredOneMore(nodes, table.slotsOf, [], e, table.now);
      assert [] + [e] == [e];
      ghost var moved := Memory2Shared();
      MovesFit(moved, old(memory), table.now);
      StoredInTurn(nodes, table.slotsOf, [e], moved, table.now);
      stored := [e] + moved;
      assert stored[1..] == moved;
    }

    /** updateDNS; locked says that the lock could be had. */
    method UpdateDNS(host: string, addr: string, ttl: int, locked: bool) returns (ret: int, ghost stored: seq<Storing>)
      requires Valid() && |host| <= HOST_MAXLENGTH
      modifies `memory, table.nodes, table`authors, table`given
      ensures Valid()
      ensures table.given == old(table.given) + if ttl < 0 then {} else {Given(host, addr, table.now + ttl)}
      ensures ret == if ttl < 0 then -1 else 0
      ensures locked && 0 <= ttl ==>
                && memory == map[] && Settles(stored, old(memory), table.now, host, addr, ttl)
                && table.nodes[..] == StoredAll(old(table.nodes[..]), table.slotsOf, stored, table.now)
      ensures ttl < 0 ==> memory == old(memory)
      ensures !locked && 0 <= ttl ==> memory == old(memory)[host := Record(addr, table.now + ttl)]
      ensures !locked || ttl < 0 ==> table.nodes[..] == old(table.nodes[..])
    {
      hide StoredAll, Justified, Sourced, Settles;
      stored := [];
      if ttl < 0 {
        return -1, stored;
      }
      if !locked {
        Store2Memory(host, addr, ttl);
        return 0, stored;
      }
      JustifiedMore(memory, table.given, table.given + {Given(host, addr, table.now + ttl)});
      table.Give(Given(host, addr, table.now + ttl));
      stored := StoreAtOnce(host, addr, ttl);
      ret := 0;
    }

    /**
     * queryIP: a hit is an address that some update gave, not yet expired, for a host that begins with the one asked
     * for or that it begins with.
     */
    method QueryIP(host: string, locked: bool) returns (addr: Option<string>, ghost moved: seq<Storing>)
      requires Valid() && |host| <= HOST_MAXLENGTH
      modifies `memory, table.nodes, table`authors
      ensures Valid()
      ensures !locked ==> addr.None? && memory == old(memory) && table.nodes[..] == old(table.nodes[..])
      ensures locked ==> memory == map[] && Moves(moved, old(memory), table.now) &&
                         table.nodes[..] == StoredAll(old(table.nodes[..]), table.slotsOf, moved, table.now) &&
                         var hit := FirstHit(table.nodes[..], table.slotsOf(host), host, table.now, 0);
                         addr == if hit.Some? then Some(table.nodes[table.slotsOf(host)[hit.value]].addr) else None
      ensures addr.Some? ==> Explained(host, addr.value, table.now, table.given, table.slotsOf)
    {
      hide StoredAll, Sourced, FirstHit, Explained, Justified;
      moved := [];
      if !locked {
        return None, moved;
      }
      moved := Memory2Shared();
      addr := Probe(host);
    }

    /** The probes of queryIP. */
    method Probe(host: string) returns (addr: Option<string>)
      requires Valid()
      ensures var hit := FirstHit(table.nodes[..], table.slotsOf(host), host, table.now, 0);
              addr == if hit.Some? then Some(table.nodes[table.slotsOf(host)[hit.value]].addr) else None
      ensures addr.Some? ==> Explained(host, addr.value, table.now, table.given, table.slotsOf)
    {
      hide StartsWith;
      var slots := table.slotsOf(host);
      ghost var all := table.nodes[..];
      var cnt, of := 0, slots[0];
      while true
        invariant 0 <= cnt < Probes(slots) && of == slots[cnt]
        invariant FirstHit(all, slots, host, table.now, cnt) == FirstHit(all, slots, host, table.now, 0)
        decreases Probes(slots) - cnt
      {
        if Hits(table.nodes[of], host, table.now) {
          HitExplained(of, host);
          return Some(table.nodes[of].addr);
        }
        ProbesEnd(slots, cnt + 1, 1);
        cnt := cnt + 1;
        of := NextHashkey(slots, cnt);
        if of == slots[0] {
          break;
        }
      }
      addr := None;
    }

    lemma HitExplained(of: nat, host: string)
      requires Valid() && of in ProbeSet(table.slotsOf(host)) && Hits(table.nodes[of], host, table.now)
      ensures Explained(host, table.nodes[of].addr, table.now, table.given, table.slotsOf)
    {
      hide StartsWith;
      var g := table.authors[of];
      assert of in ProbeSet(table.slotsOf(g.host));
      BothStart(table.nodes[of].host, g.host, host);
    }
  }

  // ---------------------------------------------------------------- runs

  datatype Operation =
    | Update(who: nat, host: string, addr: string, ttl: int, locked: bool)
    | Query(who: nat, host: string, locked: bool)
    | Advance(seconds: nat)

  predicate Within(op: Operation, caches: nat, hosts: set<string>) {
    match op
    case Update(who, host, _, _, _) => who < caches && host in hosts && |host| <= HOST_MAXLENGTH
    case Query(who, host, _) => who < caches && host in hosts && |host| <= HOST_MAXLENGTH
    case Advance(_) => true
  }

  /** The table, the clock, and what each process keeps. */
  datatype World = World(nodes: seq<Node>, now: int, memories: seq<map<string, Record>>)

  /** What one operation makes of the world, and what it answers. */
  ghost predicate Steps(w: World, op: Operation, x: World, answer: Option<string>, slotsOf: string -> Slots)
    requires IsTable(w.nodes) && IsTable(x.nodes)
    requires !op.Advance? ==> op.who < |w.memories|
  {
    match op
    case Advance(seconds) => x == w.(now := w.now + seconds) && answer.None?
    case Update(who, host, addr, ttl, locked) =>
      answer.None? &&
      if ttl < 0 then x == w
      else if !locked then x == w.(memories := w.memories[who := w.memories[who][host := Record(addr, w.now + ttl)]])
      else exists stored ::
        && Settles(stored, w.memories[who], w.now, host, addr, ttl)
        && x == World(StoredAll(w.nodes, slotsOf, stored, w.now), w.now, w.memories[who := map[]])
    case Query(who, host, locked) =>
      if !locked then x == w && answer.None?
      else exists moved ::
        && Moves(moved, w.memories[who], w.now)
        && x == World(StoredAll(w.nodes, slotsOf, moved, w.now), w.now, w.memories[who := map[]])
        && answer == Answer(x, host, slotsOf(host))
  }

  /** What the probes find. */
  function Answer(w: World, host: string, slots: Slots): Option<string>
    requires IsTable(w.nodes)
  {
    var hit := FirstHit(w.nodes, slots, host, w.now, 0);
    if hit.Some? then Some(w.nodes[slots[hit.value]].addr) else None
  }

  /** With related hosts apart, an explained hit is the host's own. */
  lemma Own(hosts: set<string>, host: string, addr: string, at: int, given: set<Given>, slotsOf: string -> Slots)
    requires AllApart(hosts, slotsOf) && host in hosts && Explained(host, addr, at, given, slotsOf)
    requires forall g :: g in given ==> g.host in hosts
    ensures exists g :: g in given && IsOwn(g, host, addr, at)
  {
    var g :| g in given && g.addr == addr && at <= g.expiredAt && Related(g.host, host) &&
      !Apart(slotsOf(g.host), slotsOf(host));
    assert g.host in hosts && IsOwn(g, host, addr, at);
  }

  predicate IsOwn(g: Given, host: string, addr: string, at: int) {
    g.host == host && g.addr == addr && at <= g.expiredAt
  }

  /** One process for each cache, all with the same table. */
  ghost predicate AllJustified(caches: seq<Cache>, table: SharedTable)
    reads caches, table
  {
    && (forall i, j :: 0 <= i < j < |caches| ==> caches[i] != caches[j])
    && forall i :: 0 <= i < |caches| ==> caches[i].table == table && Justified(caches[i].memory, table.given)
  }

  ghost function Memories(caches: seq<Cache>): (m: seq<map<string, Record>>)
    reads caches
    ensures |m| == |caches| && forall i :: 0 <= i < |caches| ==> m[i] == caches[i].memory
  {
    if caches == [] then [] else Memories(caches[..|caches| - 1]) + [caches[|caches| - 1].memory]
  }

  ghost function WorldOf(table: SharedTable, caches: seq<Cache>): World
    reads table, table.nodes, caches
  {
    World(table.nodes[..], table.now, Memories(caches))
  }

  /** Only the memory of one process has changed. */
  lemma MemoriesOf(before: seq<map<string, Record>>, caches: seq<Cache>, who: nat)
    requires |before| == |caches| && who < |caches|
    requires forall i :: 0 <= i < |caches| && i != who ==> caches[i].memory == before[i]
    ensures Memories(caches) == before[who := caches[who].memory]
  {
  }

  lemma CacheValid(caches: seq<Cache>, table: SharedTable, who: nat)
    requires table.Valid() && AllJustified(caches, table) && who < |caches|
    ensures caches[who].table == table && caches[who].Valid()
    ensures forall i :: 0 <= i < |caches| && i != who ==> caches[i] != caches[who]
  {
  }

  /** An update of a run. */
  method Give(table: SharedTable, caches: seq<Cache>, op: Operation)
    requires table.Valid() && AllJustified(caches, table)
    requires op.Update? && op.who < |caches| && |op.host| <= HOST_MAXLENGTH
    modifies table, table.nodes, caches
    ensures table.Valid() && AllJustified(caches, table) && table.now == old(table.now)
    ensures IsTable(old(table.nodes[..])) && IsTable(table.nodes[..]) &&
            Steps(old(WorldOf(table, caches)), op, WorldOf(table, caches), None, table.slotsOf)
    ensures table.given == old(table.given) + Gives(op, table.now)
  {
    hide Settles, StoredAll, Sourced, Justified;
    SourcedTable(table.nodes[..], table.authors, table.slotsOf);
    CacheValid(caches, table, op.who);
    ghost var before := Memories(caches);
    var _, _ := caches[op.who].UpdateDNS(op.host, op.addr, op.ttl, op.locked);
    SourcedTable(table.nodes[..], table.authors, table.slotsOf);
    MemoriesOf(before, caches, op.who);
    StillJustified(caches, table, before, op.who, old(table.given));
    assert before[op.who := before[op.who]] == before;
  }

  /** A query of a run. */
  method Ask(table: SharedTable, caches: seq<Cache>, op: Operation) returns (answer: Option<string>)
    requires table.Valid() && AllJustified(caches, table)
    requires op.Query? && op.who < |caches| && |op.host| <= HOST_MAXLENGTH
    modifies table`authors, table.nodes, caches
    ensures table.Valid() && AllJustified(caches, table)
    ensures IsTable(old(table.nodes[..])) && IsTable(table.nodes[..]) &&
            Steps(old(WorldOf(table, caches)), op, WorldOf(table, caches), answer, table.slotsOf)
    ensures answer.Some? ==> Explained(op.host, answer.value, table.now, table.given, table.slotsOf)
  {
    hide Moves, StoredAll, Sourced, Justified, Explained, FirstHit;
    SourcedTable(table.nodes[..], table.authors, table.slotsOf);
    CacheValid(caches, table, op.who);
    ghost var before := Memories(caches);
    ghost var moved;
    answer, moved := caches[op.who].QueryIP(op.host, op.locked);
    SourcedTable(table.nodes[..], table.authors, table.slotsOf);
    MemoriesOf(before, caches, op.who);
    StillJustified(caches, table, before, op.who, table.given);
    assert before[op.who := before[op.who]] == before;
  }

  lemma StillJustified(caches: seq<Cache>, table: SharedTable, before: seq<map<string, Record>>, who: nat,
                       given: set<Given>)
    requires |before| == |caches| && who < |caches| && given <= table.given
    requires Justified(caches[who].memory, table.given)
    requires forall i, j :: 0 <= i < j < |caches| ==> caches[i] != caches[j]
    requires forall i :: 0 <= i < |caches| ==> caches[i].table == table && Justified(before[i], given)
    requires forall i :: 0 <= i < |caches| && i != who ==> caches[i].memory == before[i]
    ensures AllJustified(caches, table)
  {
    hide Justified;
    forall i | 0 <= i < |caches|
      ensures Justified(caches[i].memory, table.given)
    {
      JustifiedMore(before[i], given, table.given);
    }
  }

  /** One operation of a run. */
  method Operate(table: SharedTable, caches: seq<Cache>, hosts: set<string>, op: Operation)
    returns (answer: Option<string>)
    requires table.Valid() && AllApart(hosts, table.slotsOf) && AllJustified(caches, table) &&
             Within(op, |caches|, hosts)
    requires forall g :: g in table.given ==> g.host in hosts
    modifies table, table.nodes, caches
    ensures table.Valid() && AllJustified(caches, table)
    ensures IsTable(old(table.nodes[..])) && IsTable(table.nodes[..]) &&
            Steps(old(WorldOf(table, caches)), op, WorldOf(table, caches), answer, table.slotsOf)
    ensures answer.Some? ==>
              op.Query? && exists g :: g in old(table.given) && IsOwn(g, op.host, answer.value, old(table.now))
    ensures table.given == old(table.given) + Gives(op, old(table.now))
    ensures forall g :: g in table.given ==> g.host in hosts
  {
    hide Moves, Settles, StoredAll, FirstHit, Sourced, Explained, AllApart, IsOwn;
    answer := None;
    if op.Advance? {
      SourcedTable(table.nodes[..], table.authors, table.slotsOf);
      ghost var before := Memories(caches);
      table.Advance(op.seconds);
      assert Memories(caches) == before;
    } else if op.Update? {
      Give(table, caches, op);
    } else {
      answer := Ask(table, caches, op);
      if answer.Some? {
        Own(hosts, op.host, answer.value, table.now, table.given, table.slotsOf);
      }
    }
  }

  /** What an operation gives. */
  function Gives(op: Operation, now: int): set<Given> {
    if op.Update? && 0 <= op.ttl then {Given(op.host, op.addr, now + op.ttl)} else {}
  }

  /** The worlds of a run follow each other by its operations. */
  ghost predicate Follow(worlds: seq<World>, operations: seq<Operation>, answers: seq<Option<string>>, caches: nat,
                         slotsOf: string -> Slots)
  {
    && |worlds| == |operations| + 1 && |answers| == |operations|
    && (forall n :: 0 <= n <= |operations| ==> IsTable(worlds[n].nodes) && |worlds[n].memories| == caches)
    && forall n :: 0 <= n < |operations| ==>
         && (!operations[n].Advance? ==> operations[n].who < caches)
         && Steps(worlds[n], operations[n], worlds[n + 1], answers[n], slotsOf)
  }

  /** What has been given was given by an operation. */
  ghost predicate AllGiven(given: set<Given>, worlds: seq<World>, operations: seq<Operation>)
    requires |operations| < |worlds|
  {
    forall g :: g in given ==> exists m :: 0 <= m < |operations| && g in Gives(operations[m], worlds[m].now)
  }

  /** The operation m of a run gave an address for a host, which has not expired. */
  ghost predicate GaveIt(op: Operation, w: World, host: string, addr: string, at: int) {
    op.Update? && 0 <= op.ttl && op.host == host && op.addr == addr && at <= w.now + op.ttl
  }

  /** Every answer up to now is an address that an update of this run gave for the very host asked for. */
  ghost predicate RightAnswers(worlds: seq<World>, operations: seq<Operation>, answers: seq<Option<string>>)
    requires |answers| == |operations| < |worlds|
  {
    forall n :: 0 <= n < |operations| && answers[n].Some? ==>
      operations[n].Query? &&
      exists m :: 0 <= m < n && GaveIt(operations[m], worlds[m], operations[n].host, answers[n].value, worlds[n].now)
  }

  /**
   * Any run of updates, queries and clock advances, by any number of processes sharing the table, with and without
   * the lock: each operation does what it should to the table and the process; and when no slot is probed for two of
   * the hosts one of which begins with the other, every answer is an address that an update of the run gave for the
   * host asked for, and had not expired.
   */
  method Run(table: SharedTable, caches: seq<Cache>, hosts: set<string>, operations: seq<Operation>)
    returns (answers: seq<Option<string>>, ghost worlds: seq<World>)
    requires table.Valid() && table.given == {} && AllApart(hosts, table.slotsOf)
    requires forall i :: 0 <= i < |caches| ==> caches[i].table == table && caches[i].Valid()
    requires forall i, j :: 0 <= i < j < |caches| ==> caches[i] != caches[j]
    requires forall i :: 0 <= i < |operations| ==> Within(operations[i], |caches|, hosts)
    modifies table, table.nodes, caches
    ensures table.Valid()
    ensures Follow(worlds, operations, answers, |caches|, table.slotsOf)
    ensures worlds[0] == old(WorldOf(table, caches)) && worlds[|operations|] == WorldOf(table, caches)
    ensures RightAnswers(worlds, operations, answers)
  {
    hide Steps, Moves, Settles, StoredAll, FirstHit, Sourced, AllApart, Gives, GaveIt, AllGiven, RightAnswers;
    answers, worlds := [], [WorldOf(table, caches)];
    SourcedTable(table.nodes[..], table.authors, table.slotsOf);
    NothingYet(worlds);
    var n := 0;
    assert operations[..0] == [];
    while n < |operations|
      invariant 0 <= n <= |operations| && table.Valid() && AllJustified(caches, table)
      invariant Follow(worlds, operations[..n], answers, |caches|, table.slotsOf)
      invariant worlds[0] == old(WorldOf(table, caches)) && worlds[n] == WorldOf(table, caches)
      invariant forall g :: g in table.given ==> g.host in hosts
      invariant AllGiven(table.given, worlds, operations[..n])
      invariant RightAnswers(worlds, operations[..n], answers)
    {
      ghost var given := table.given;
      var answer := Operate(table, caches, hosts, operations[n]);
      ghost var w := WorldOf(table, caches);
      FollowOn(worlds, operations, n, answers, |caches|, table.slotsOf, w, answer);
      GivenOn(worlds, operations, n, w, given, table.given);
      RightOn(worlds, operations, n, answers, w, given, answer);
      answers, worlds := answers + [answer], worlds + [w];
      n := n + 1;
    }
    assert operations[..n] == operations;
  }

  lemma NothingYet(worlds: seq<World>)
    requires |worlds| == 1
    ensures AllGiven({}, worlds, []) && RightAnswers(worlds, [], [])
  {
  }

  lemma FollowOn(worlds: seq<World>, operations: seq<Operation>, n: nat, answers: seq<Option<string>>, caches: nat,
                 slotsOf: string -> Slots, w: World, answer: Option<string>)
    requires n < |operations| && Follow(worlds, operations[..n], answers, caches, slotsOf)
    requires IsTable(w.nodes) && |w.memories| == caches && (!operations[n].Advance? ==> operations[n].who < caches)
    requires Steps(worlds[n], operations[n], w, answer, slotsOf)
    ensures Follow(worlds + [w], operations[..n + 1], answers + [answer], caches, slotsOf)
  {
    hide Steps;
  }

  lemma GivenOn(worlds: seq<World>, operations: seq<Operation>, n: nat, w: World, given: set<Given>, more: set<Given>)
    requires n < |operations| && |worlds| == n + 1 && AllGiven(given, worlds, operations[..n])
    requires more == given + Gives(operations[n], worlds[n].now)
    ensures AllGiven(more, worlds + [w], operations[..n + 1])
  {
    hide Gives;
    forall g | g in more
      ensures exists m :: 0 <= m < n + 1 && g in Gives(operations[..n + 1][m], (worlds + [w])[m].now)
    {
      if g in given {
        var m :| 0 <= m < n && g in Gives(operations[..n][m], worlds[m].now);
        assert operations[..n + 1][m] == operations[..n][m] && (worlds + [w])[m] == worlds[m];
      } else {
        assert operations[..n + 1][n] == operations[n] && (worlds + [w])[n] == worlds[n];
      }
    }
  }

  lemma RightOn(worlds: seq<World>, operations: seq<Operation>, n: nat, answers: seq<Option<string>>, w: World,
                given: set<Given>, answer: Option<string>)
    requires n < |operations| && |worlds| == n + 1 && |answers| == n
    requires AllGiven(given, worlds, operations[..n]) && RightAnswers(worlds, operations[..n], answers)
    requires answer.Some? ==>
               operations[n].Query? &&
               exists g :: g in given && IsOwn(g, operations[n].host, answer.value, worlds[n].now)
    ensures RightAnswers(worlds + [w], operations[..n + 1], answers + [answer])
  {
    var all, ops, got := worlds + [w], operations[..n + 1], answers + [answer];
    forall k | 0 <= k < n + 1 && got[k].Some?
      ensures ops[k].Query? &&
              exists m :: 0 <= m < k && GaveIt(ops[m], all[m], ops[k].host, got[k].value, all[k].now)
    {
      if k < n {
        assert ops[k] == operations[..n][k] && got[k] == answers[k] && all[k] == worlds[k];
        var m :| 0 <= m < k && GaveIt(operations[..n][m], worlds[m], ops[k].host, got[k].value, worlds[k].now);
        assert ops[m] == operations[..n][m] && all[m] == worlds[m];
      } else {
        var g :| g in given && IsOwn(g, operations[n].host, answer.value, worlds[n].now);
        var m :| 0 <= m < n && g in Gives(operations[..n][m], worlds[m].now);
        assert ops[m] == operations[..n][m] && all[m] == worlds[m];
        assert GaveIt(ops[m], all[m], ops[k].host, got[k].value, all[k].now);
      }
    }
  }
}

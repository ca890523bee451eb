/**
 * The event loop of net/EventsLoop.cpp: channels live in an explicit heap, callbacks may register and unregister any
 * channel in the middle of a batch, and an unregistered channel is only marked until the batch is over.
 */
module EventsLoops {
  import opened Basics
  import opened TimeWheels

  const EVENT_CALLBACK_CONTINUE: int := 0
  const EVENT_CALLBACK_BREAK: int := 1
  const EVENT_CALLBACK_DROPWAITED: int := 2

  /** The socket of the time wheel's timerfd. */
  const TIMER: nat := 0

  datatype Channel = Channel(sockfd: int, sock: nat)

  datatype Socket = Socket(fd: int, channelptr: Option<Addr>, listening: bool)

  datatype Kind = Before | Rdhup | Hup | Err | In | Out | Last | Timeout

  /** What a callback may do, each with the choices of the allocator and of epoll_ctl. */
  datatype Action =
    | Register(sock: nat, wish: Addr, ok: bool)
    | Unregister(sock: nat)
    | Close(sock: nat)
    | Open(sock: nat, fd: int, listening: bool)
    | Forget(sock: nat)                            // Socket::reset
    | Enable(sock: nat, ok: bool)

  /** How a callback comes out; recall says that closing a timed-out SSL socket has to wait. */
  datatype Reply = NoHandler(recall: bool) | Handler(actions: seq<Action>, ret: int)

  /**
   * What happens to channels: a callback that is due is called, and returns ret, or has no handler; an event for a
   * channel that is no longer valid is skipped.
   */
  datatype Note =
    | Allocated(a: Addr)
    | Called(a: Addr, kind: Kind, ret: int)
    | Unhandled(a: Addr, kind: Kind)
    | Skipped(a: Addr)
    | Unregistered(a: Addr)
    | Freed(a: Addr)

  /** The channels in use, and those unregistered but not yet freed. */
  datatype Lives = Lives(live: set<Addr>, doomed: set<Addr>)

  /**
   * What may happen: only a free address is allocated, only a channel in use is called back or unregistered, and only
   * an unregistered one is freed.
   */
  predicate Lawful(l: Lives, n: Note) {
    match n
    case Allocated(a) => a !in l.live && a !in l.doomed
    case Called(a, _, _) => a in l.live
    case Unhandled(a, _) => a in l.live
    case Skipped(a) => a in l.live || a in l.doomed
    case Unregistered(a) => a in l.live
    case Freed(a) => a in l.doomed
  }

  function Happen(l: Lives, n: Note): Lives {
    match n
    case Allocated(a) => l.(live := l.live + {a})
    case Unregistered(a) => Lives(l.live - {a}, l.doomed + {a})
    case Freed(a) => l.(doomed := l.doomed - {a})
    case _ => l
  }

  predicate LawfulNotes(l: Lives, notes: seq<Note>)
    decreases |notes|
  {
    notes == [] || (Lawful(l, notes[0]) && LawfulNotes(Happen(l, notes[0]), notes[1..]))
  }

  function AfterNotes(l: Lives, notes: seq<Note>): Lives
    decreases |notes|
  {
    if notes == [] then l else AfterNotes(Happen(l, notes[0]), notes[1..])
  }

  lemma {:induction false} NotesExtend(l: Lives, notes: seq<Note>, n: Note)
    requires LawfulNotes(l, notes) && Lawful(AfterNotes(l, notes), n)
    ensures LawfulNotes(l, notes + [n]) && AfterNotes(l, notes + [n]) == Happen(AfterNotes(l, notes), n)
    decreases |notes|
  {
    hide Lawful, Happen;
    if notes == [] {
      assert notes + [n] == [n];
      assert [n][1..] == [];
    } else {
      assert (notes + [n])[1..] == notes[1..] + [n];
      NotesExtend(Happen(l, notes[0]), notes[1..], n);
    }
  }

  function Times(notes: seq<Note>, n: Note): nat {
    if notes == [] then 0 else (if notes[0] == n then 1 else 0) + Times(notes[1..], n)
  }

  function One(b: bool): nat {
    if b then 1 else 0
  }

  /**
   * In every lawful history a channel address is freed once for every time it was unregistered, save for one that is
   * still pending, and it is unregistered once for every time it was allocated, save for one still in use.
   */
  lemma {:induction false} FreedOnce(l: Lives, notes: seq<Note>, a: Addr)
    requires LawfulNotes(l, notes) && l.live !! l.doomed
    ensures var m := AfterNotes(l, notes);
            && Times(notes, Unregistered(a)) + One(a in l.doomed) == Times(notes, Freed(a)) + One(a in m.doomed)
            && Times(notes, Allocated(a)) + One(a in l.live) == Times(notes, Unregistered(a)) + One(a in m.live)
    decreases |notes|
  {
    if notes != [] {
      FreedOnce(Happen(l, notes[0]), notes[1..], a);
    }
  }

  /** A channel in use that is so no longer has been unregistered. */
  lemma {:induction false} LeftByUnregistering(l: Lives, notes: seq<Note>, a: Addr)
    requires LawfulNotes(l, notes) && a in l.live && a !in AfterNotes(l, notes).live
    ensures Unregistered(a) in notes
    decreases |notes|
  {
    if notes[0] != Unregistered(a) {
      LeftByUnregistering(Happen(l, notes[0]), notes[1..], a);
    }
  }

  lemma {:induction false} NotesSplit(l: Lives, before: seq<Note>, after: seq<Note>)
    requires LawfulNotes(l, before + after)
    ensures LawfulNotes(l, before) && LawfulNotes(AfterNotes(l, before), after)
    ensures AfterNotes(l, before + after) == AfterNotes(AfterNotes(l, before), after)
    decreases |before|
  {
    if before == [] {
      assert before + after == after;
    } else {
      assert (before + after)[1..] == before[1..] + after;
      NotesSplit(Happen(l, before[0]), before[1..], after);
    }
  }

  // ---------------------------------------------------------------- what is called for an event

  /** The notes of the tests that waitChannel makes for the events reported. */
  predicate IsTest(n: Note) {
    (n.Called? && !n.kind.Timeout?) || n.Unhandled? || n.Skipped?
  }

  function Tested(notes: seq<Note>): (tests: seq<Note>) {
    if notes == [] then []
    else Tested(notes[..|notes| - 1]) + if IsTest(notes[|notes| - 1]) then [notes[|notes| - 1]] else []
  }

  lemma TestedExtend(notes: seq<Note>, n: Note)
    ensures Tested(notes + [n]) == Tested(notes) + if IsTest(n) then [n] else []
  {
    assert (notes + [n])[..|notes|] == notes;
  }

  /** More has happened, and none of it is a test. */
  ghost predicate Untested(before: seq<Note>, after: seq<Note>) {
    before <= after && Tested(after) == Tested(before)
  }

  /** More has happened to the wheel, and none of it begins or ends a sweep. */
  ghost predicate Steady(before: seq<Op>, after: seq<Op>) {
    before <= after && forall i :: |before| <= i < |after| ==> !after[i].Jump? && !after[i].Settle?
  }

  ghost predicate Onward(notes0: seq<Note>, notes1: seq<Note>, ops0: seq<Op>, ops1: seq<Op>) {
    Untested(notes0, notes1) && Steady(ops0, ops1)
  }

  /** Exactly one jump, and the whole of its sweep. */
  ghost predicate OneSweep(before: seq<Op>, after: seq<Op>) {
    && |before| + 2 <= |after| && before + [Jump] <= after && after[|after| - 1] == Settle
    && Steady(before + [Jump], after[..|after| - 1])
  }

  lemma OnwardItself(notes: seq<Note>, ops: seq<Op>)
    ensures Onward(notes, notes, ops, ops)
  {
  }

  lemma OnwardNote(notes: seq<Note>, n: Note, ops: seq<Op>)
    requires !IsTest(n)
    ensures Onward(notes, notes + [n], ops, ops)
  {
    TestedExtend(notes, n);
  }

  lemma OnwardOp(notes: seq<Note>, ops: seq<Op>, op: Op)
    requires !op.Jump? && !op.Settle?
    ensures Onward(notes, notes, ops, ops + [op])
  {
  }

  lemma OnwardOn(n0: seq<Note>, n1: seq<Note>, n2: seq<Note>, o0: seq<Op>, o1: seq<Op>, o2: seq<Op>)
    requires Onward(n0, n1, o0, o1) && Onward(n1, n2, o1, o2)
    ensures Onward(n0, n2, o0, o2)
  {
  }

  /** A clock event of the timerfd that could be read. */
  predicate ReadsClock(n: Note, timer: bool) {
    timer && n.Called? && n.kind.In? && n.ret == 0
  }

  function Clocked(tests: seq<Note>, timer: bool): nat {
    if tests == [] then 0
    else Clocked(tests[..|tests| - 1], timer) + One(ReadsClock(tests[|tests| - 1], timer))
  }

  /** A clock event means one jump with its sweep, and nothing else jumps. */
  ghost predicate Wheeled(n: Note, timer: bool, before: seq<Op>, after: seq<Op>) {
    if ReadsClock(n, timer) then OneSweep(before, after) else Steady(before, after)
  }

  lemma {:induction false} SteadyJumps(before: seq<Op>, after: seq<Op>)
    requires Steady(before, after)
    ensures Jumps(after) == Jumps(before)
    decreases |after|
  {
    if before != [] {
      SteadyJumps(before[1..], after[1..]);
    } else if after != [] {
      assert !after[0].Jump?;
      SteadyJumps([], after[1..]);
    }
  }

  lemma {:induction false} JumpsExtend(ops: seq<Op>, op: Op)
    ensures Jumps(ops + [op]) == Jumps(ops) + One(op.Jump?)
  {
    if ops != [] {
      assert (ops + [op])[1..] == ops[1..] + [op];
      JumpsExtend(ops[1..], op);
    }
  }

  lemma WheeledJumps(n: Note, timer: bool, before: seq<Op>, after: seq<Op>)
    requires Wheeled(n, timer, before, after)
    ensures Jumps(after) == Jumps(before) + One(ReadsClock(n, timer))
  {
    if ReadsClock(n, timer) {
      var swept := after[..|after| - 1];
      JumpsExtend(before, Jump);
      SteadyJumps(before + [Jump], swept);
      JumpsExtend(swept, Settle);
      assert after == swept + [Settle];
    } else {
      SteadyJumps(before, after);
    }
  }

  lemma UntestedOn(n0: seq<Note>, n1: seq<Note>, n2: seq<Note>)
    requires Untested(n0, n1) && Untested(n1, n2)
    ensures Untested(n0, n2)
  {
  }

  /** The order of the tests. */
  const STAGES: seq<Kind> := [Before, Rdhup, Hup, Err, In, Out, Last]

  predicate IsDue(kind: Kind, reported: set<Kind>) {
    kind.Before? || kind.Last? || kind in reported
  }

  /** The callbacks due among the first k, in their order. */
  function DueUpTo(reported: set<Kind>, k: nat): (due: seq<Kind>)
    requires k <= |STAGES|
    ensures |due| <= k
  {
    if k == 0 then [] else DueUpTo(reported, k - 1) + if IsDue(STAGES[k - 1], reported) then [STAGES[k - 1]] else []
  }

  /** The callbacks due for what is reported of a channel: the first and the last always are. */
  function CallsDue(reported: set<Kind>): seq<Kind> {
    DueUpTo(reported, |STAGES|)
  }

  predicate IsTestOf(t: Note, a: Addr, kind: Kind) {
    (t.Called? || t.Unhandled?) && t.a == a && t.kind == kind
  }

  /** What DECIDE_EVENTCALLBACK makes of what a callback returns. */
  function VerdictOf(t: Note): (v: int)
    ensures v in {EVENT_CALLBACK_CONTINUE, EVENT_CALLBACK_BREAK, EVENT_CALLBACK_DROPWAITED}
  {
    if t.Called? && t.ret in {EVENT_CALLBACK_BREAK, EVENT_CALLBACK_DROPWAITED} then t.ret else EVENT_CALLBACK_CONTINUE
  }

  /**
   * The tests of one event: those due, in their order, until a callback breaks off or drops the batch, or the channel
   * is gone.
   */
  ghost predicate Pass(a: Addr, due: seq<Kind>, tests: seq<Note>, gone: bool) {
    && 0 < |tests| <= |due|
    && (forall i :: 0 <= i < |tests| ==> IsTestOf(tests[i], a, due[i]))
    && (forall i :: 0 <= i < |tests| - 1 ==> VerdictOf(tests[i]) == EVENT_CALLBACK_CONTINUE)
    && (|tests| < |due| ==> gone || VerdictOf(tests[|tests| - 1]) != EVENT_CALLBACK_CONTINUE)
  }

  lemma DuePrefix(reported: set<Kind>, k: nat)
    requires k <= |STAGES|
    ensures DueUpTo(reported, k) <= CallsDue(reported)
    decreases |STAGES| - k
  {
    if k < |STAGES| {
      DuePrefix(reported, k + 1);
    }
  }

  /** The beginning of a pass. */
  datatype Turn =
    Turn(a: Addr, timer: bool, reported: set<Kind>, heap: map<Addr, Channel>, notes: seq<Note>, ops: seq<Op>,
         replies: seq<Reply>)

  /** In the middle of a pass, with no callback that has broken off. */
  ghost predicate Passing(a: Addr, due: seq<Kind>, tests: seq<Note>, gone: bool) {
    && |tests| <= |due| && (|tests| < |due| ==> gone)
    && forall i :: 0 <= i < |tests| ==> IsTestOf(tests[i], a, due[i]) && VerdictOf(tests[i]) == EVENT_CALLBACK_CONTINUE
  }

  // ---------------------------------------------------------------- the tables

  /**
   * The tables of the loop: the heap, the sockets, the set of channels to delete, epoll's interest list, the wheel's
   * channels.
   */
  datatype Tables = Tables(heap: map<Addr, Channel>, sockets: seq<Socket>, needDeleted: set<Addr>,
                           interest: map<int, Addr>, timed: set<Addr>)

  ghost predicate InUse(t: Tables, a: Addr) {
    a in t.heap && a !in t.needDeleted
  }

  /** A channel is pending deletion exactly when it bears the tombstone, and then no table leads to it. */
  ghost predicate Sound(t: Tables) {
    && TIMER < |t.sockets|
    && (forall a :: a in t.needDeleted ==> a in t.heap)
    && (forall a :: a in t.heap ==> t.heap[a].sock < |t.sockets| && (a in t.needDeleted <==> t.heap[a].sockfd < 0))
    && (forall a :: a in t.needDeleted ==> t.heap[a].sockfd == -1)
    && (forall s :: 0 <= s < |t.sockets| && t.sockets[s].channelptr.Some? ==>
          InUse(t, t.sockets[s].channelptr.value) && t.heap[t.sockets[s].channelptr.value].sock == s)
    && (forall f :: f in t.interest ==> InUse(t, t.interest[f]) && t.heap[t.interest[f]].sockfd == f)
    && (forall a :: a in t.timed ==> InUse(t, a) && t.heap[a].sock != TIMER)
  }

  function From(heap: map<Addr, Channel>, wish: Addr): set<Addr> {
    set x | x in heap.Keys && wish <= x
  }

  /** An address the allocator may give: the one wished for, when it is free. */
  function FreeAddr(heap: map<Addr, Channel>, wish: Addr): (a: Addr)
    ensures a !in heap && wish <= a
    ensures wish !in heap ==> a == wish
    decreases From(heap, wish)
  {
    if wish in heap then
      assert wish in From(heap, wish) && wish !in From(heap, wish + 1);
      assert From(heap, wish + 1) <= From(heap, wish);
      FreeAddr(heap, wish + 1)
    else wish
  }

  function Dropped(interest: map<int, Addr>, fd: int): map<int, Addr> {
    map f | f in interest && f != fd :: interest[f]
  }

  function Linked(t: Tables, s: nat, a: Addr): Tables
    requires s < |t.sockets|
  {
    t.(heap := t.heap[a := Channel(t.sockets[s].fd, s)],
       sockets := t.sockets[s := t.sockets[s].(channelptr := Some(a))])
  }

  lemma SoundLinked(t: Tables, s: nat, a: Addr)
    requires Sound(t) && s < |t.sockets| && t.sockets[s].fd >= 0 && t.sockets[s].channelptr.None? && a !in t.heap
    ensures Sound(Linked(t, s, a)) && InUse(Linked(t, s, a), a)
  {
  }

  function Buried(t: Tables, s: nat): Tables
    requires s < |t.sockets| && t.sockets[s].channelptr.Some? && t.sockets[s].channelptr.value in t.heap
  {
    var a := t.sockets[s].channelptr.value;
    t.(heap := t.heap[a := t.heap[a].(sockfd := -1)], needDeleted := t.needDeleted + {a},
       interest := Dropped(t.interest, t.heap[a].sockfd), timed := t.timed - {a},
       sockets := t.sockets[s := t.sockets[s].(channelptr := None)])
  }

  lemma SoundBuried(t: Tables, s: nat)
    requires Sound(t) && s < |t.sockets| && t.sockets[s].channelptr.Some?
    ensures Sound(Buried(t, s))
  {
  }

  lemma SoundSocket(t: Tables, s: nat, sock: Socket)
    requires Sound(t) && s < |t.sockets| && (sock.channelptr.None? || sock.channelptr == t.sockets[s].channelptr)
    ensures Sound(t.(sockets := t.sockets[s := sock]))
  {
  }

  lemma SoundInterest(t: Tables, a: Addr)
    requires Sound(t) && InUse(t, a)
    ensures Sound(t.(interest := t.interest[t.heap[a].sockfd := a]))
  {
  }

  lemma SoundDropped(t: Tables, fd: int)
    requires Sound(t)
    ensures Sound(t.(interest := Dropped(t.interest, fd)))
  {
  }

  lemma SoundTimed(t: Tables, a: Addr)
    requires Sound(t) && InUse(t, a)
    ensures t.heap[a].sock != TIMER ==> Sound(t.(timed := t.timed + {a}))
  {
  }

  lemma SoundUntimed(t: Tables, a: Addr)
    requires Sound(t)
    ensures Sound(t.(timed := t.timed - {a}))
  {
  }

  function Deleted(t: Tables, a: Addr): Tables {
    t.(heap := map x | x in t.heap && x != a :: t.heap[x], needDeleted := t.needDeleted - {a})
  }

  lemma SoundDeleted(t: Tables, a: Addr)
    requires Sound(t) && a in t.needDeleted
    ensures Sound(Deleted(t, a))
  {
  }

  /** The channels of the tables. */
  ghost function LivesOf(t: Tables): Lives {
    Lives(t.heap.Keys - t.needDeleted, t.needDeleted)
  }

  /** The notes so far are lawful and lead to these channels. */
  ghost predicate Explained(notes: seq<Note>, l: Lives) {
    LawfulNotes(Lives({}, {}), notes) && AfterNotes(Lives({}, {}), notes) == l
  }

  lemma Explain(notes: seq<Note>, l: Lives, n: Note, m: Lives)
    requires Explained(notes, l) && Lawful(l, n) && m == Happen(l, n)
    ensures Explained(notes + [n], m)
  {
    NotesExtend(Lives({}, {}), notes, n);
  }

  /** A channel that is not marked is in use. */
  lemma NotMarked(t: Tables, a: Addr)
    requires Sound(t) && a in t.heap
    ensures t.heap[a].sock < |t.sockets| && (InUse(t, a) <==> t.heap[a].sockfd >= 0) &&
            (t.heap[a].sockfd == -1 <==> a in t.needDeleted)
  {
  }

  lemma Reported(t: Tables, fd: int)
    requires Sound(t) && fd in t.interest
    ensures InUse(t, t.interest[fd]) && t.heap[t.interest[fd]].sockfd == fd
  {
  }

  lemma InWheel(t: Tables, a: Addr)
    requires Sound(t) && a in t.timed
    ensures InUse(t, a) && a in t.heap && t.heap[a].sockfd >= 0
  {
  }

  lemma Pointed(t: Tables, s: nat)
    requires Sound(t) && s < |t.sockets| && t.sockets[s].channelptr.Some?
    ensures InUse(t, t.sockets[s].channelptr.value) && t.heap[t.sockets[s].channelptr.value].sock == s
  {
  }

  /** No channel has been freed, or changed but for its tombstone. */
  ghost predicate Kept(h0: map<Addr, Channel>, h: map<Addr, Channel>) {
    forall a :: a in h0 ==>
                  a in h && h[a].sock == h0[a].sock && (h[a].sockfd == h0[a].sockfd || h[a].sockfd == -1)
  }

  /** Channels have stayed where they were in the wheel, or left it; only new ones have joined, in the current node. */
  ghost predicate Gathered(h0: map<Addr, Channel>, p0: map<Addr, nat>, p: map<Addr, nat>) {
    forall a :: a in p ==> (a in p0 && p0[a] == p[a]) || (p[a] == 0 && a !in h0)
  }

  lemma TimedInHeap(t: Tables)
    requires Sound(t)
    ensures t.timed <= t.heap.Keys
  {
  }

  lemma StillHere(h0: map<Addr, Channel>, p0: map<Addr, nat>, p: map<Addr, nat>, a: Addr)
    requires Gathered(h0, p0, p) && a in h0 && a in p0 && p0[a] == 0
    ensures a in p ==> p[a] == 0
  {
  }

  /** The current node after the channels have gathered and one was taken from it. */
  lemma GatheredHere(h0: map<Addr, Channel>, p0: map<Addr, nat>, c0: set<Addr>, h: map<Addr, Channel>,
                     p: map<Addr, nat>,
                     c: set<Addr>, taken: Addr)
    requires Gathered(h0, p0, p) && p.Keys <= h.Keys && (forall a :: a in c0 <==> a in p0 && p0[a] == 0)
    requires forall a :: a in c <==> a != taken && a in p && p[a] == 0
    ensures c <= c0 - {taken} + Added(h0, h)
  {
  }

  /** A reply that does not register anything. */
  predicate RegistersNothing(r: Reply) {
    r.Handler? ==> forall i :: 0 <= i < |r.actions| ==> !r.actions[i].Register?
  }

  /** A callback that opens a descriptor on the cleared socket s, and registers it. */
  predicate Reopens(actions: seq<Action>, s: nat) {
    && |actions| == 3 && actions[0] == Forget(s)
    && actions[1].Open? && actions[1].sock == s && 0 <= actions[1].fd && !actions[1].listening
    && actions[2].Register? && actions[2].sock == s
  }

  predicate ReplyReopens(r: Reply, s: nat) {
    r.Handler? && Reopens(r.actions, s)
  }

  /** How the next callback comes out; no handler is left when there are no more replies. */
  function Coming(replies: seq<Reply>): Reply {
    if replies == [] then NoHandler(false) else replies[0]
  }

  function Rest(replies: seq<Reply>): seq<Reply> {
    if replies == [] then [] else replies[1..]
  }

  /** What a test comes to: the handler of the timerfd is always there, and says whether the clock could be read. */
  function Outcome(a: Addr, kind: Kind, timer: bool, reply: Reply): Note {
    if timer && kind.In? then Called(a, In, if reply.NoHandler? then -1 else 0)
    else if reply.NoHandler? then Unhandled(a, kind)
    else Called(a, kind, reply.ret)
  }

  function Remaining(replies: seq<Reply>, n: nat): seq<Reply> {
    if n <= |replies| then replies[n..] else []
  }

  /** The tests come out as the replies say, which they use up one by one. */
  ghost predicate Replied(a: Addr, tests: seq<Note>, before: seq<Reply>, after: seq<Reply>) {
    && after == Remaining(before, |tests|)
    && forall i :: 0 <= i < |tests| ==>
         (tests[i].Called? || tests[i].Unhandled?) &&
         tests[i] == Outcome(a, tests[i].kind, false, Coming(Remaining(before, i)))
  }

  /** One more test in a pass whose channel is still there. */
  lemma TestPassed(p: Turn, k: nat, before: seq<Note>, n: Note, gone: bool)
    requires k < |STAGES| && IsDue(STAGES[k], p.reported) && IsTestOf(n, p.a, STAGES[k])
    requires Passing(p.a, DueUpTo(p.reported, k), before, false)
    ensures if VerdictOf(n) == EVENT_CALLBACK_CONTINUE
            then Passing(p.a, DueUpTo(p.reported, k + 1), before + [n], gone)
            else Pass(p.a, CallsDue(p.reported), before + [n], false)
    ensures Clocked(before + [n], p.timer) == Clocked(before, p.timer) + One(ReadsClock(n, p.timer))
  {
    DuePrefix(p.reported, k + 1);
    assert (before + [n])[..|before|] == before;
  }

  lemma TestReplied(a: Addr, tests: seq<Note>, n: Note, before: seq<Reply>, after: seq<Reply>)
    requires Replied(a, tests, before, after) && (n.Called? || n.Unhandled?)
    requires n == Outcome(a, n.kind, false, Coming(after))
    ensures Replied(a, tests + [n], before, Rest(after))
  {
  }

  /** A stage without a callback. */
  lemma StagePassed(p: Turn, k: nat, tests: seq<Note>, gone: bool)
    requires k < |STAGES| && (IsDue(STAGES[k], p.reported) ==> gone)
    requires Passing(p.a, DueUpTo(p.reported, k), tests, gone)
    ensures Passing(p.a, DueUpTo(p.reported, k + 1), tests, gone)
  {
  }

  lemma AllPassed(p: Turn, tests: seq<Note>, gone: bool, unregistered: bool)
    requires Passing(p.a, CallsDue(p.reported), tests, gone) && tests != [] && (gone ==> unregistered)
    ensures Pass(p.a, CallsDue(p.reported), tests, unregistered)
    ensures VerdictOf(tests[|tests| - 1]) == EVENT_CALLBACK_CONTINUE
  {
  }

  /** A channel that was in use and bears the tombstone now has been unregistered meanwhile. */
  lemma GoneNoted(before: seq<Note>, t: Tables, after: seq<Note>, u: Tables, a: Addr)
    requires Explained(before, LivesOf(t)) && Explained(after, LivesOf(u)) && before <= after
    requires InUse(t, a) && !InUse(u, a)
    ensures Unregistered(a) in after[|before|..]
  {
    assert after == before + after[|before|..];
    NotesSplit(Lives({}, {}), before, after[|before|..]);
    LeftByUnregistering(LivesOf(t), after[|before|..], a);
  }

  lemma Tombstone(h0: map<Addr, Channel>, h: map<Addr, Channel>, a: Addr)
    requires Kept(h0, h) && a in h0 && 0 < h0[a].sockfd
    ensures a in h && (h[a].sockfd <= 0 ==> h[a].sockfd == -1)
  {
  }

  lemma KeptKeys(h0: map<Addr, Channel>, h: map<Addr, Channel>)
    requires Kept(h0, h)
    ensures h0.Keys <= h.Keys
  {
  }

  lemma SameSocket(h0: map<Addr, Channel>, h: map<Addr, Channel>, a: Addr)
    requires Kept(h0, h) && a in h0
    ensures a in h && h[a].sock == h0[a].sock
  {
  }

  lemma RefreshNoJump(ops: seq<Op>, a: Addr)
    ensures Jumps(ops + [Refresh(a)]) == Jumps(ops) && ops + [] == ops
  {
    JumpsExtend(ops, Refresh(a));
  }

  lemma SkipCounts(a: Addr, timer: bool)
    ensures Clocked([Skipped(a)], timer) == 0 && !Drops([Skipped(a)])
  {
    assert [Skipped(a)][..0] == [];
  }

  lemma PassWeaker(a: Addr, due: seq<Kind>, tests: seq<Note>, gone: bool)
    requires Pass(a, due, tests, false)
    ensures Pass(a, due, tests, gone)
  {
  }

  // ---------------------------------------------------------------- a batch of events

  /** What epoll reports of a batch: the descriptors it watches, with their channels. */
  function Polled(interest: map<int, Addr>, batch: seq<(int, set<Kind>)>): seq<(Addr, set<Kind>)> {
    if batch == [] then []
    else
      var last := batch[|batch| - 1];
      Polled(interest, batch[..|batch| - 1]) + if last.0 in interest then [(interest[last.0], last.1)] else []
  }

  function Joint(passes: seq<seq<Note>>): seq<Note> {
    if passes == [] then [] else Joint(passes[..|passes| - 1]) + passes[|passes| - 1]
  }

  predicate Drops(tests: seq<Note>) {
    tests != [] && VerdictOf(tests[|tests| - 1]) == EVENT_CALLBACK_DROPWAITED
  }

  ghost predicate HandledOne(event: (Addr, set<Kind>), tests: seq<Note>, meanwhile: seq<Note>) {
    tests == [Skipped(event.0)] || Pass(event.0, CallsDue(event.1), tests, Unregistered(event.0) in meanwhile)
  }

  /** The first events have been handled: each has had its pass, or was skipped. */
  ghost predicate Handled(events: seq<(Addr, set<Kind>)>, passes: seq<seq<Note>>, meanwhile: seq<Note>) {
    |passes| <= |events| && forall i :: 0 <= i < |passes| ==> HandledOne(events[i], passes[i], meanwhile)
  }

  lemma HandledLater(event: (Addr, set<Kind>), tests: seq<Note>, before: seq<Note>, after: seq<Note>)
    requires HandledOne(event, tests, before) || HandledOne(event, tests, after)
    ensures HandledOne(event, tests, before + after)
  {
    var n := Unregistered(event.0);
    assert n in before || n in after ==> n in before + after;
  }

  lemma HandledYet(events: seq<(Addr, set<Kind>)>, passes: seq<seq<Note>>, before: seq<Note>, after: seq<Note>)
    requires Handled(events, passes, before)
    ensures Handled(events, passes, before + after)
  {
    hide HandledOne;
    forall i | 0 <= i < |passes|
      ensures HandledOne(events[i], passes[i], before + after)
    {
      HandledLater(events[i], passes[i], before, after);
    }
  }

  /** One more event has been handled. */
  lemma HandledOn(events: seq<(Addr, set<Kind>)>, passes: seq<seq<Note>>, tests: seq<Note>, before: seq<Note>,
                  after: seq<Note>)
    requires Handled(events, passes, before) && |passes| < |events| && HandledOne(events[|passes|], tests, after)
    ensures Handled(events, passes + [tests], before + after) && Joint(passes + [tests]) == Joint(passes) + tests
  {
    hide HandledOne;
    HandledYet(events, passes, before, after);
    HandledLater(events[|passes|], tests, before, after);
    assert (passes + [tests])[..|passes|] == passes;
  }

  lemma NoneHandled(events: seq<(Addr, set<Kind>)>, notes: seq<Note>)
    ensures Handled(events, [], notes[|notes|..]) && Tested(notes) == Tested(notes) + Joint([])
  {
  }

  predicate NoneRegisters(replies: seq<Reply>) {
    forall i :: 0 <= i < |replies| ==> RegistersNothing(replies[i])
  }

  lemma NoneRegistersNext(replies: seq<Reply>)
    requires NoneRegisters(replies)
    ensures RegistersNothing(Coming(replies)) && NoneRegisters(Rest(replies))
  {
  }

  lemma NoReply()
    ensures RegistersNothing(Coming([]))
  {
  }

  /** Channels that have come to the heap. */
  function Added(h0: map<Addr, Channel>, h: map<Addr, Channel>): set<Addr> {
    h.Keys - h0.Keys
  }

  lemma KeptItself(h: map<Addr, Channel>)
    ensures Kept(h, h) && Added(h, h) == {}
  {
  }

  lemma NothingAdded(h0: map<Addr, Channel>, h: map<Addr, Channel>)
    requires h.Keys == h0.Keys
    ensures Added(h0, h) == {}
  {
  }

  lemma KeptOn(h0: map<Addr, Channel>, h1: map<Addr, Channel>, h2: map<Addr, Channel>)
    requires Kept(h0, h1) && Kept(h1, h2)
    ensures Kept(h0, h2)
  {
  }

  /**
   * What is left of the current node after a pass that takes a from it, and what has been added meanwhile, makes up for
   * the pass.
   */
  lemma PassCounted(h0: map<Addr, Channel>, h1: map<Addr, Channel>, h2: map<Addr, Channel>, c1: set<Addr>,
                    c2: set<Addr>, a: Addr)
    requires Kept(h0, h1) && Kept(h1, h2) && a in c1 && c2 <= c1 - {a} + Added(h1, h2)
    ensures 1 + |c2| + |Added(h0, h1)| <= |c1| + |Added(h0, h2)|
  {
    assert Added(h0, h2) == Added(h0, h1) + Added(h1, h2);
    assert |Added(h0, h2)| == |Added(h0, h1)| + |Added(h1, h2)|;
    var most := c1 - {a} + Added(h1, h2);
    Smaller(c2, most);
    assert |c1| == |c1 - {a}| + 1;
    assert |most| <= |c1 - {a}| + |Added(h1, h2)|;
  }

  lemma Smaller(a: set<Addr>, b: set<Addr>)
    requires a <= b
    ensures |a| <= |b|
  {
    assert b == a + (b - a);
  }

  class EventsLoop {
    var heap: map<Addr, Channel>
    var sockets: seq<Socket>
    var needDeleted: set<Addr>
    var interest: map<int, Addr>
    const timer: TimeWheel
    var replies: seq<Reply>                  // how the coming callbacks come out
    ghost var notes: seq<Note>

    ghost function View(): Tables
      reads this, timer
    {
      Tables(heap, sockets, needDeleted, interest, timer.place.Keys)
    }

    ghost predicate Valid()
      reads this, timer, timer.nodes
    {
      timer.Valid() && Sound(View()) && Explained(notes, LivesOf(View()))
    }

    /** Socket s has a channel it had not before, in the wheel's current node. */
    ghost predicate Joined(h0: map<Addr, Channel>, s: nat)
      reads this, timer
    {
      s < |sockets| && sockets[s].channelptr.Some? &&
      var a := sockets[s].channelptr.value;
      a !in h0 && a in heap && a in timer.place && timer.place[a] == 0
    }

    constructor (sockets: seq<Socket>, nodeNum: int, replies: seq<Reply>)
      requires TIMER < |sockets| && forall s :: 0 <= s < |sockets| ==> sockets[s].channelptr.None?
      ensures Valid() && fresh(timer) && fresh(timer.nodes)
      ensures needDeleted == {} && !timer.sweeping && timer.ops == [] && notes == []
      ensures |timer.ring| == if nodeNum < 1 then 1 else nodeNum
    {
      this.sockets, this.replies := sockets, replies;
      heap, needDeleted, interest, notes := map[], {}, map[], [];
      timer := new TimeWheel(nodeNum);
      new;
      assert View().heap.Keys - View().needDeleted == {};
    }

    // -------------------------------------------------------------- registering and unregistering

    /** A channel the wheel keeps: isSkipChannel says of any other to leave it out. */
    ghost predicate Tracked(a: Addr)
      reads this
    {
      && a in heap && heap[a].sock < |sockets| && heap[a].sockfd != -1 && heap[a].sock != TIMER
      && (sockets[heap[a].sock].fd < 0 || !sockets[heap[a].sock].listening)
    }

    /** The wheel's updateChannel, with isSkipChannel. */
    method UpdateTimer(a: Addr)
      requires Valid() && a in heap
      modifies timer.nodes, timer`place, timer`ops
      ensures Valid() && timer.place == if Tracked(a) then old(timer.place)[a := 0] else old(timer.place)
      ensures timer.ops == old(timer.ops) + if Tracked(a) then [Refresh(a)] else []
      ensures Onward(notes, notes, old(timer.ops), timer.ops)
    {
      hide Sound, Explained;
      NotMarked(View(), a);
      var sock := sockets[heap[a].sock];
      var skip := heap[a].sockfd == -1 || (sock.fd >= 0 && sock.listening) || heap[a].sock == TIMER;
      ghost var t := View();
      timer.UpdateChannel(a, skip);
      if !skip {
        SoundTimed(t, a);
      }
      assert View() == if skip then t else t.(timed := t.timed + {a});
    }

    /** epoll_ctl with EPOLL_CTL_ADD or EPOLL_CTL_MOD, either after the other when need be; ok says that it succeeds. */
    method Watch(a: Addr, ok: bool)
      requires Valid() && InUse(View(), a)
      modifies `interest
      ensures Valid() && interest == if ok then old(interest)[heap[a].sockfd := a] else old(interest)
    {
      hide Sound, Explained;
      if ok {
        SoundInterest(View(), a);
        interest := interest[heap[a].sockfd := a];
      }
    }

    /** The interest list after a channel has been watched. */
    static ghost function Watched(interest: map<int, Addr>, a: Option<Addr>, heap: map<Addr, Channel>, ok: bool):
      map<int, Addr>
    {
      if ok && a.Some? && a.value in heap then interest[heap[a.value].sockfd := a.value] else interest
    }

    method RegisterChannel(s: nat, wish: Addr, ok: bool) returns (ret: int)
      requires Valid() && s < |sockets|
      modifies this, timer.nodes, timer`place, timer`ops
      ensures Valid() && Kept(old(heap), heap) && |sockets| == old(|sockets|) && replies == old(replies)
      ensures Gathered(old(heap), old(timer.place), timer.place) && Onward(old(notes), notes, old(timer.ops), timer.ops)
      ensures if old(sockets[s].fd) < 0 then ret == -1 && interest == old(interest) && notes == old(notes)
              else
                && sockets[s].channelptr.Some? && sockets[s].fd == old(sockets[s].fd)
                && ret == (if ok then 0 else -1) && interest == Watched(old(interest), sockets[s].channelptr, heap, ok)
                && (old(sockets[s].channelptr).Some? ==> sockets == old(sockets) && notes == old(notes))
                && (old(sockets[s].channelptr).None? ==> notes == old(notes) + [Allocated(sockets[s].channelptr.value)])
      ensures needDeleted == old(needDeleted)
      ensures s != TIMER && 0 <= old(sockets[s].fd) && !old(sockets[s].listening) &&
              old(sockets[s].channelptr).None? ==>
                Joined(old(heap), s)
    {
      hide Sound, Explained, Onward;
      OnwardItself(notes, timer.ops);
      if sockets[s].fd < 0 {
        return -1;
      }
      if sockets[s].channelptr.None? {
        var a := FreeAddr(heap, wish);
        OnwardNote(notes, Allocated(a), timer.ops);
        ghost var t := View();
        SoundLinked(t, s, a);
        Explain(notes, LivesOf(t), Allocated(a), LivesOf(Linked(t, s, a)));
        heap := heap[a := Channel(sockets[s].fd, s)];
        sockets := sockets[s := sockets[s].(channelptr := Some(a))];
        notes := notes + [Allocated(a)];
        UpdateTimer(a);
        OnwardOn(old(notes), notes, notes, old(timer.ops), old(timer.ops), timer.ops);
        Watch(a, ok);
      } else {
        Pointed(View(), s);
        Watch(sockets[s].channelptr.value, ok);
      }
      ret := if ok then 0 else -1;
    }

    method UnregisterChannel(s: nat)
      requires Valid() && s < |sockets|
      modifies this, timer.nodes, timer`place, timer`ops
      ensures Valid() && Kept(old(heap), heap) && |sockets| == old(|sockets|) && replies == old(replies)
      ensures sockets[s].channelptr.None? && sockets[s].fd == old(sockets[s].fd)
      ensures heap.Keys == old(heap.Keys) && Gathered(old(heap), old(timer.place), timer.place) &&
              Onward(old(notes), notes, old(timer.ops), timer.ops)
      ensures old(sockets[s].channelptr).Some? ==> old(sockets[s].channelptr.value) in needDeleted
    {
      hide Sound, Explained;
      OnwardItself(notes, timer.ops);
      if sockets[s].channelptr.None? {
        return;
      }
      var a := sockets[s].channelptr.value;
      ghost var t := View();
      Pointed(t, s);
      SoundBuried(t, s);
      Explain(notes, LivesOf(t), Unregistered(a), LivesOf(Buried(t, s)));
      OnwardNote(notes, Unregistered(a), timer.ops);
      interest := Dropped(interest, heap[a].sockfd);
      heap := heap[a := heap[a].(sockfd := -1)];
      needDeleted := needDeleted + {a};
      timer.EraseChannel(a);
      sockets := sockets[s := sockets[s].(channelptr := None)];
      notes := notes + [Unregistered(a)];
      assert timer.place.Keys == t.timed - {a};
      assert View() == Buried(t, s);
    }

    /** tcpClose: the channel is switched off and unregistered, then the descriptor closed, which epoll notices. */
    method CloseSocket(s: nat)
      requires Valid() && s < |sockets|
      modifies this, timer.nodes, timer`place, timer`ops
      ensures Valid() && Kept(old(heap), heap) && |sockets| == old(|sockets|) && replies == old(replies)
      ensures heap.Keys == old(heap.Keys) && Gathered(old(heap), old(timer.place), timer.place) &&
              Onward(old(notes), notes, old(timer.ops), timer.ops)
      ensures sockets[s].fd < 0 && sockets[s].channelptr.None? &&
              (0 <= old(sockets[s].fd) ==> old(sockets[s].fd) !in interest)
      ensures old(sockets[s].channelptr).Some? ==> old(sockets[s].channelptr.value) in needDeleted
    {
      hide Sound, Explained;
      if sockets[s].channelptr.Some? {
        Pointed(View(), s);
        Watch(sockets[s].channelptr.value, true);
        UnregisterChannel(s);
      }
      if sockets[s].fd >= 0 {
        ghost var t := View();
        SoundDropped(t, sockets[s].fd);
        SoundSocket(t.(interest := Dropped(t.interest, t.sockets[s].fd)), s, t.sockets[s].(fd := -1));
        interest := Dropped(interest, sockets[s].fd);
        sockets := sockets[s := sockets[s].(fd := -1)];
      }
    }

    method SetSocket(s: nat, sock: Socket)
      requires Valid() && s < |sockets| && (sock.channelptr.None? || sock.channelptr == sockets[s].channelptr)
      modifies `sockets
      ensures Valid() && sockets == old(sockets)[s := sock]
    {
      hide Sound, Explained;
      SoundSocket(View(), s, sock);
      sockets := sockets[s := sock];
    }

    /** One thing a callback does; without the socket it does nothing. */
    method Act(action: Action)
      requires Valid()
      modifies this, timer.nodes, timer`place, timer`ops
      ensures Valid() && Kept(old(heap), heap) && |sockets| == old(|sockets|) && replies == old(replies)
      ensures Gathered(old(heap), old(timer.place), timer.place) && Onward(old(notes), notes, old(timer.ops), timer.ops)
      ensures !action.Register? ==> heap.Keys == old(heap.Keys)
      ensures var s := action.sock; s < |sockets| ==>
              && (action.Unregister? ==> sockets[s].channelptr.None? && sockets[s].fd == old(sockets[s].fd))
              && (action.Close? ==> sockets[s].fd < 0 && sockets[s].channelptr.None?)
              && ((action.Unregister? || action.Close?) && old(sockets[s].channelptr).Some? ==>
                    old(sockets[s].channelptr.value) in needDeleted)
              && ((action.Register? || action.Enable?) && 0 <= old(sockets[s].fd) ==>
                    interest == Watched(old(interest), sockets[s].channelptr, heap, action.ok))
              && (action.Register? && 0 <= old(sockets[s].fd) ==> sockets[s].channelptr.Some?)
              && (action.Forget? ==> sockets[s] == Socket(-1, None, false))
              && (action.Open? ==> sockets[s] == old(sockets[s]).(fd := action.fd, listening := action.listening))
              && ((action.Register? && s != TIMER && 0 <= old(sockets[s].fd) && !old(sockets[s].listening) &&
                   old(sockets[s].channelptr).None?) ==> Joined(old(heap), s))
    {
      hide Sound, Explained;
      var s := action.sock;
      if s < |sockets| {
        if action.Register? {
          var _ := RegisterChannel(s, action.wish, action.ok);
        } else if action.Unregister? {
          UnregisterChannel(s);
        } else if action.Close? {
          CloseSocket(s);
        } else if action.Open? {
          SetSocket(s, sockets[s].(fd := action.fd, listening := action.listening));
        } else if action.Forget? {
          SetSocket(s, Socket(-1, None, false));
        } else if sockets[s].fd >= 0 && sockets[s].channelptr.Some? {
          Pointed(View(), s);
          Watch(sockets[s].channelptr.value, action.ok);
        }
      }
    }

    method Perform(actions: seq<Action>)
      requires Valid()
      modifies this, timer.nodes, timer`place, timer`ops
      ensures Valid() && Kept(old(heap), heap) && |sockets| == old(|sockets|) && replies == old(replies)
      ensures Gathered(old(heap), old(timer.place), timer.place) && Onward(old(notes), notes, old(timer.ops), timer.ops)
      ensures (forall i :: 0 <= i < |actions| ==> !actions[i].Register?) ==> heap.Keys == old(heap.Keys)
      ensures forall s: nat :: s < |sockets| && s != TIMER && Reopens(actions, s) ==> Joined(old(heap), s)
    {
      hide Valid;
      var i := 0;
      while i < |actions|
        invariant 0 <= i <= |actions| && Valid() && Kept(old(heap), heap) && |sockets| == old(|sockets|) &&
                  replies == old(replies)
        invariant Gathered(old(heap), old(timer.place), timer.place)
        invariant Onward(old(notes), notes, old(timer.ops), timer.ops)
        invariant (forall j :: 0 <= j < i ==> !actions[j].Register?) ==> heap.Keys == old(heap.Keys)
        invariant forall s: nat :: s < |sockets| && s != TIMER && Reopens(actions, s) ==>
                    && (i == 1 ==> sockets[s] == Socket(-1, None, false))
                    && (i == 2 ==> sockets[s] == Socket(actions[1].fd, None, false))
                    && (i == 3 ==> Joined(old(heap), s))
      {
        Act(actions[i]);
        i := i + 1;
      }
    }

    /** A callback of a channel in use. */
    method Callback(a: Addr, kind: Kind, reply: Reply) returns (ret: int)
      requires Valid() && InUse(View(), a) && (kind.Timeout? ==> reply.Handler?)
      modifies this, timer.nodes, timer`place, timer`ops
      ensures Valid() && Kept(old(heap), heap) && |sockets| == old(|sockets|) && replies == old(replies)
      ensures Gathered(old(heap), old(timer.place), timer.place)
      ensures old(notes) + [Outcome(a, kind, false, reply)] <= notes
      ensures Onward(old(notes) + [Outcome(a, kind, false, reply)], notes, old(timer.ops), timer.ops)
      ensures ret == if reply.NoHandler? then EVENT_CALLBACK_CONTINUE else reply.ret
      ensures RegistersNothing(reply) ==> heap.Keys == old(heap.Keys)
      ensures forall s: nat :: s < |sockets| && s != TIMER && ReplyReopens(reply, s) ==> Joined(old(heap), s)
    {
      hide Sound, Explained;
      ghost var n := Outcome(a, kind, false, reply);
      Explain(notes, LivesOf(View()), n, LivesOf(View()));
      notes := notes + [n];
      OnwardItself(notes, timer.ops);
      if reply.NoHandler? {
        return EVENT_CALLBACK_CONTINUE;
      }
      Perform(reply.actions);
      ret := reply.ret;
    }

    method NextReply() returns (reply: Reply)
      requires Valid()
      modifies `replies
      ensures Valid() && reply == Coming(old(replies)) && replies == Rest(old(replies))
    {
      reply := NoHandler(false);
      if replies != [] {
        reply := replies[0];
        replies := replies[1..];
      }
    }

    // -------------------------------------------------------------- the sweep

    /** A channel of the current node is timed out: its callback, or its socket closed. */
    method TimeOut(a: Addr)
      requires Valid() && InUse(View(), a)
      modifies this, timer.nodes, timer`place, timer`ops
      ensures Valid() && Kept(old(heap), heap) && |sockets| == old(|sockets|)
      ensures Gathered(old(heap), old(timer.place), timer.place) && Onward(old(notes), notes, old(timer.ops), timer.ops)
      ensures replies == Rest(old(replies)) && (RegistersNothing(Coming(old(replies))) ==> heap.Keys == old(heap.Keys))
      ensures var r := Coming(old(replies)); r.NoHandler? ==>
                if r.recall then sockets == old(sockets) && interest == old(interest) && notes == old(notes)
                else old(heap[a].sock) < |sockets| && sockets[old(heap[a].sock)].fd < 0
      ensures var r := Coming(old(replies)); r.Handler? ==> old(notes) + [Called(a, Timeout, r.ret)] <= notes
      ensures forall s: nat :: s < |sockets| && s != TIMER && ReplyReopens(Coming(old(replies)), s) ==>
                Joined(old(heap), s)
    {
      hide Sound, Explained;
      NotMarked(View(), a);
      var reply := NextReply();
      if reply.NoHandler? {
        if !reply.recall {
          CloseSocket(heap[a].sock);
        }
      } else {
        var _ := Callback(a, Timeout, reply);
      }
    }

    /**
     * The first half of the sweep's loop: a channel of the current node, unless it bears the tombstone, is timed out.
     */
    method Expire(a: Addr)
      requires Valid() && timer.sweeping && a in timer.place && timer.place[a] == 0 && a in timer.current.channelSet
      modifies this, timer.nodes, timer`place, timer`ops
      ensures Valid() && Kept(old(heap), heap) && |sockets| == old(|sockets|)
      ensures old(timer.ops) + [Fire(a)] <= timer.ops && Onward(old(notes), notes, old(timer.ops), timer.ops)
      ensures Gathered(old(heap), old(timer.place), timer.place)
      ensures replies == Rest(old(replies)) && (RegistersNothing(Coming(old(replies))) ==> heap.Keys == old(heap.Keys))
      ensures forall s: nat :: s < |sockets| && s != TIMER && ReplyReopens(Coming(old(replies)), s) ==>
                Joined(old(heap), s)
    {
      hide Sound, Explained, Gathered;
      InWheel(View(), a);
      if heap[a].sockfd != -1 {
        timer.Expire(a);
        TimeOut(a);
      }
    }

    /** One pass of the sweep's loop, which takes a channel from the current node; only new ones join it meanwhile. */
    method SweepOne() returns (ghost taken: Addr)
      requires Valid() && timer.sweeping && timer.current.channelSet != {}
      modifies this, timer.nodes, timer`place, timer`ops
      ensures Valid() && Kept(old(heap), heap) && |sockets| == old(|sockets|)
      ensures Onward(old(notes), notes, old(timer.ops), timer.ops)
      ensures |timer.ops| > |old(timer.ops)| && timer.ops[|old(timer.ops)|] == Fire(taken)
      ensures taken in old(timer.current.channelSet)
      ensures timer.current.channelSet <= old(timer.current.channelSet) - {taken} + Added(old(heap), heap)
      ensures replies == Rest(old(replies)) && (RegistersNothing(Coming(old(replies))) ==> heap.Keys == old(heap.Keys))
      ensures forall s: nat :: s < |sockets| && s != TIMER && ReplyReopens(Coming(old(replies)), s) ==>
                timer.current.channelSet != {}
    {
      hide Sound, Explained, InUse, Gathered, Added, RegistersNothing, ReplyReopens, Onward, Kept;
      var a :| a in timer.current.channelSet;
      taken := a;
      timer.HereAll();
      InWheel(View(), a);
      Expire(a);
      SoundUntimed(View(), a);
      TimedInHeap(View());
      StillHere(old(heap), old(timer.place), timer.place, a);
      ghost var t, p, o := View(), timer.place, timer.ops;
      timer.EraseHere(a);
      assert View() == t.(timed := t.timed - {a});
      OnwardOp(notes, o, Erase(a));
      OnwardOn(old(notes), notes, notes, old(timer.ops), o, timer.ops);
      timer.HereAll();
      GatheredHere(old(heap), old(timer.place), old(timer.current.channelSet), heap, p, timer.current.channelSet, a);
    }

    /**
     * clearCurrentTimeNode: times out the channels of the current node, and those that join it meanwhile. There are no
     * more passes than there were channels in the node and have been registered by the callbacks since.
     */
    method ClearCurrentTimeNode() returns (ghost passes: nat)
      requires Valid() && timer.sweeping
      modifies this, timer.nodes, timer`place, timer`ops
      ensures Valid() && Kept(old(heap), heap) && |sockets| == old(|sockets|)
      ensures timer.current.channelSet == {}
      ensures Onward(old(notes), notes, old(timer.ops), timer.ops)
      ensures passes <= |old(timer.current.channelSet)| + |Added(old(heap), heap)|
      ensures NoneRegisters(old(replies)) ==> passes <= |old(timer.current.channelSet)|
    {
      hide Valid, Kept, RegistersNothing, NoneRegisters, ReplyReopens, Added, Onward;
      passes := 0;
      KeptItself(heap);
      OnwardItself(notes, timer.ops);
      while timer.current.channelSet != {}
        invariant Valid() && Kept(old(heap), heap) && |sockets| == old(|sockets|)
        invariant Onward(old(notes), notes, old(timer.ops), timer.ops)
        invariant passes + |timer.current.channelSet| <= |old(timer.current.channelSet)| + |Added(old(heap), heap)|
        invariant NoneRegisters(old(replies)) ==> NoneRegisters(replies) && heap.Keys == old(heap.Keys)
        decreases |replies|, timer.current.channelSet
      {
        ghost var h, c := heap, timer.current.channelSet;
        ghost var n, o := notes, timer.ops;
        NoReply();
        if NoneRegisters(replies) {
          NoneRegistersNext(replies);
        }
        ghost var a := SweepOne();
        if heap.Keys == h.Keys {
          NothingAdded(h, heap);
        }
        PassCounted(old(heap), h, heap, c, timer.current.channelSet, a);
        KeptOn(old(heap), h, heap);
        OnwardOn(old(notes), n, notes, old(timer.ops), o, timer.ops);
        passes := passes + 1;
      }
      if NoneRegisters(old(replies)) {
        NothingAdded(old(heap), heap);
      }
    }

    /**
     * Nothing bounds what the callbacks register, and so nothing bounds the sweep: as long as the callbacks reopen and
     * register a socket, the node is never empty, however many passes have been made.
     */
    method SweepGoesOn(s: nat, n: nat)
      requires Valid() && timer.sweeping && timer.current.channelSet != {} && TIMER != s < |sockets|
      requires n <= |replies| && forall i :: 0 <= i < n ==> ReplyReopens(replies[i], s)
      modifies this, timer.nodes, timer`place, timer`ops
      ensures Valid() && timer.current.channelSet != {} && Kept(old(heap), heap)
    {
      hide Valid, Kept;
      KeptItself(heap);
      var i := 0;
      while i < n
        invariant 0 <= i <= n && Valid() && Kept(old(heap), heap) && |sockets| == old(|sockets|)
        invariant timer.current.channelSet != {} && replies == old(replies)[i..]
      {
        ghost var h := heap;
        ghost var a := SweepOne();
        KeptOn(old(heap), h, heap);
        i := i + 1;
      }
    }

    // -------------------------------------------------------------- a batch of events

    /**
     * clockEventHandle: the callback of the timerfd; a handler's reply says that the clock event could be read. The
     * wheel then turns by one node, and the channels of that node are swept.
     */
    method ClockEventHandle(reply: Reply)
      requires Valid() && !timer.sweeping
      modifies this, timer, timer.nodes
      ensures Valid() && !timer.sweeping && Kept(old(heap), heap) && |sockets| == old(|sockets|)
      ensures Untested(old(notes), notes)
      ensures if reply.NoHandler? then timer.ops == old(timer.ops) else OneSweep(old(timer.ops), timer.ops)
    {
      hide Sound, Explained;
      if reply.NoHandler? {
        return;
      }
      timer.Advance();
      var _ := ClearCurrentTimeNode();
      ghost var swept := timer.ops;
      timer.EndSweep();
      assert timer.ops[..|timer.ops| - 1] == swept;
    }

    /** A callback of a channel in use; that of the timerfd drives the wheel. */
    method Dispatch(a: Addr, kind: Kind) returns (ret: int)
      requires Valid() && InUse(View(), a) && !timer.sweeping && !kind.Timeout?
      modifies this, timer, timer.nodes
      ensures Valid() && !timer.sweeping && Kept(old(heap), heap) && |sockets| == old(|sockets|)
      ensures var n := Outcome(a, kind, old(heap[a].sock) == TIMER, Coming(old(replies)));
              && Untested(old(notes) + [n], notes)
              && ret == (if n.Called? then n.ret else EVENT_CALLBACK_CONTINUE)
              && Wheeled(n, old(heap[a].sock) == TIMER, old(timer.ops), timer.ops)
      ensures old(heap[a].sock) != TIMER ==> replies == Rest(old(replies))
    {
      hide Sound, Explained, OneSweep, Steady;
      var reply := NextReply();
      if heap[a].sock == TIMER && kind.In? {
        ghost var n := Outcome(a, kind, true, reply);
        Explain(notes, LivesOf(View()), n, LivesOf(View()));
        notes := notes + [n];
        OnwardItself(notes, timer.ops);
        ClockEventHandle(reply);
        ret := if reply.NoHandler? then -1 else 0;
      } else {
        ret := Callback(a, kind, reply);
      }
    }

    /** cleanNeedDeletedChannels */
    method CleanNeedDeletedChannels()
      requires Valid()
      modifies `heap, `needDeleted, `notes
      ensures Valid() && needDeleted == {} && forall a :: InUse(old(View()), a) ==> a in heap && heap[a] == old(heap)[a]
      ensures Untested(old(notes), notes)
    {
      hide Sound, Explained;
      while needDeleted != {}
        invariant Untested(old(notes), notes)
        invariant Valid() && forall a :: InUse(old(View()), a) ==> InUse(View(), a) && heap[a] == old(heap)[a]
        decreases needDeleted
      {
        var a :| a in needDeleted;
        ghost var t := View();
        SoundDeleted(t, a);
        Explain(notes, LivesOf(t), Freed(a), LivesOf(Deleted(t, a)));
        TestedExtend(notes, Freed(a));
        heap := map x | x in heap && x != a :: heap[x];
        needDeleted := needDeleted - {a};
        notes := notes + [Freed(a)];
        assert View() == Deleted(t, a);
      }
    }

    /** A callback that is due, with DECIDE_EVENTCALLBACK on what it returns. */
    method Ask(a: Addr, kind: Kind) returns (verdict: int)
      requires Valid() && a in heap && 0 < heap[a].sockfd && !timer.sweeping && !kind.Timeout?
      modifies this, timer, timer.nodes
      ensures Valid() && !timer.sweeping && |sockets| == old(|sockets|)
      ensures verdict == EVENT_CALLBACK_DROPWAITED ==> needDeleted == {}
      ensures verdict != EVENT_CALLBACK_DROPWAITED ==> Kept(old(heap), heap)
      ensures verdict == EVENT_CALLBACK_BREAK ==> Refreshed(a)
      ensures var n := Outcome(a, kind, old(heap[a].sock) == TIMER, Coming(old(replies)));
              && Untested(old(notes) + [n], notes) && verdict == VerdictOf(n)
              && Jumps(timer.ops) == Jumps(old(timer.ops)) + One(ReadsClock(n, old(heap[a].sock) == TIMER))
      ensures old(heap[a].sock) != TIMER ==> replies == Rest(old(replies))
    {
      hide Sound, Explained, Untested, Wheeled;
      NotMarked(View(), a);
      ghost var n := Outcome(a, kind, heap[a].sock == TIMER, Coming(replies));
      ghost var clock := heap[a].sock == TIMER;
      var ret := Dispatch(a, kind);
      WheeledJumps(n, clock, old(timer.ops), timer.ops);
      verdict := EVENT_CALLBACK_CONTINUE;
      if ret == EVENT_CALLBACK_BREAK {
        RefreshNoJump(timer.ops, a);
        UpdateTimer(a);
        return EVENT_CALLBACK_BREAK;
      } else if ret == EVENT_CALLBACK_DROPWAITED {
        ghost var called := notes;
        CleanNeedDeletedChannels();
        UntestedOn(old(notes) + [n], called, notes);
        return EVENT_CALLBACK_DROPWAITED;
      }
    }

    /** A channel of the wheel is as far from its timeout as can be. */
    ghost predicate Refreshed(a: Addr)
      reads this, timer
    {
      Tracked(a) ==> a in timer.place && timer.place[a] == 0
    }

    /** The pass p after the first k stages, with these tests. */
    ghost predicate At(p: Turn, k: nat, tests: seq<Note>)
      requires k <= |STAGES|
      reads this, timer
    {
      && p.a in heap && (p.timer <==> heap[p.a].sock == TIMER) && Kept(p.heap, heap)
      && p.notes <= notes && Tested(notes) == Tested(p.notes) + tests
      && Passing(p.a, DueUpTo(p.reported, k), tests, heap[p.a].sockfd <= 0)
      && (!p.timer ==> Replied(p.a, tests, p.replies, replies))
      && Jumps(timer.ops) == Jumps(p.ops) + Clocked(tests, p.timer)
    }

    /** The pass p when a callback has ended it. */
    ghost predicate Over(p: Turn, tests: seq<Note>, verdict: int)
      reads this, timer
    {
      && (verdict == EVENT_CALLBACK_DROPWAITED || (Kept(p.heap, heap) && Refreshed(p.a)))
      && p.notes <= notes && Tested(notes) == Tested(p.notes) + tests
      && Pass(p.a, CallsDue(p.reported), tests, false) && verdict == VerdictOf(tests[|tests| - 1])
      && (!p.timer ==> Replied(p.a, tests, p.replies, replies))
      && Jumps(timer.ops) == Jumps(p.ops) + Clocked(tests, p.timer)
    }

    /** One test of waitChannel for an event of a channel: the one of stage k. */
    method Stage(a: Addr, kind: Kind, ready: bool, ghost p: Turn, ghost k: nat, ghost before: seq<Note>)
      returns (verdict: int, ghost tests: seq<Note>)
      requires Valid() && !timer.sweeping && a == p.a && k < |STAGES| && At(p, k, before)
      requires kind == STAGES[k] && ready == IsDue(kind, p.reported)
      modifies this, timer, timer.nodes
      ensures Valid() && !timer.sweeping && |sockets| == old(|sockets|)
      ensures verdict == EVENT_CALLBACK_DROPWAITED ==> needDeleted == {}
      ensures |before| <= |tests| && (ready && old(heap[a].sockfd) > 0 ==> |before| < |tests|)
      ensures if verdict == EVENT_CALLBACK_CONTINUE then At(p, k + 1, tests)
              else Over(p, tests, verdict)
    {
      hide Valid, Replied, Pass, Passing, Kept, Tested, Jumps, Clocked, VerdictOf, DueUpTo, ReadsClock, Refreshed;
      tests := before;
      if ready && heap[a].sockfd > 0 {
        ghost var n := Outcome(a, kind, p.timer, Coming(replies));
        if !p.timer {
          TestReplied(a, before, n, p.replies, replies);
        }
        TestedExtend(notes, n);
        verdict := Ask(a, kind);
        tests := before + [n];
        if verdict != EVENT_CALLBACK_DROPWAITED {
          SameSocket(old(heap), heap, a);
          KeptOn(p.heap, old(heap), heap);
        }
        TestPassed(p, k, before, n, verdict != EVENT_CALLBACK_DROPWAITED && heap[a].sockfd <= 0);
        assert tests[|tests| - 1] == n;
      } else {
        StagePassed(p, k, before, heap[a].sockfd <= 0);
        verdict := EVENT_CALLBACK_CONTINUE;
      }
    }

    /** An event that has to be skipped: its channel is no longer valid, or its socket is closed. */
    predicate Unfit(a: Addr)
      requires a in heap && heap[a].sock < |sockets|
      reads this
    {
      heap[a].sockfd <= 0 || sockets[heap[a].sock].fd < 0
    }

    lemma Begun(p: Turn)
      requires p.a in heap && p == Turn(p.a, heap[p.a].sock == TIMER, p.reported, heap, notes, timer.ops, replies)
      ensures At(p, 0, [])
    {
      assert Tested(notes) == Tested(notes) + [];
    }

    /** The tests of a pass, until one breaks off or drops the batch. */
    method HandleReported(a: Addr, reported: set<Kind>, ghost p: Turn) returns (verdict: int, ghost tests: seq<Note>)
      requires Valid() && !timer.sweeping && a == p.a && reported == p.reported && At(p, 0, []) && 0 < heap[a].sockfd
      modifies this, timer, timer.nodes
      ensures Valid() && !timer.sweeping && |sockets| == old(|sockets|)
      ensures verdict == EVENT_CALLBACK_DROPWAITED ==> needDeleted == {}
      ensures if verdict == EVENT_CALLBACK_CONTINUE then tests != [] && At(p, |STAGES|, tests)
              else Over(p, tests, verdict)
    {
      hide Valid, At, Over, Refreshed, Kept;
      verdict, tests := Stage(a, Before, true, p, 0, []);
      if verdict != EVENT_CALLBACK_CONTINUE { return; }
      verdict, tests := Stage(a, Rdhup, Rdhup in reported, p, 1, tests);
      if verdict != EVENT_CALLBACK_CONTINUE { return; }
      verdict, tests := Stage(a, Hup, Hup in reported, p, 2, tests);
      if verdict != EVENT_CALLBACK_CONTINUE { return; }
      verdict, tests := Stage(a, Err, Err in reported, p, 3, tests);
      if verdict != EVENT_CALLBACK_CONTINUE { return; }
      verdict, tests := Stage(a, In, In in reported, p, 4, tests);
      if verdict != EVENT_CALLBACK_CONTINUE { return; }
      verdict, tests := Stage(a, Out, Out in reported, p, 5, tests);
      if verdict != EVENT_CALLBACK_CONTINUE { return; }
      verdict, tests := Stage(a, Last, true, p, 6, tests);
    }

    /** The end of a pass that nothing has broken off. */
    method EndPass(a: Addr, ghost p: Turn, ghost tests: seq<Note>)
      requires Valid() && !timer.sweeping && a == p.a && At(p, |STAGES|, tests) && tests != []
      requires heap[a].sockfd <= 0 ==> Unregistered(a) in notes[|p.notes|..]
      modifies timer.nodes, timer`place, timer`ops
      ensures Valid() && Refreshed(a) && Kept(p.heap, heap)
      ensures p.notes <= notes && Tested(notes) == Tested(p.notes) + tests
      ensures Pass(a, CallsDue(p.reported), tests, Unregistered(a) in notes[|p.notes|..])
      ensures VerdictOf(tests[|tests| - 1]) == EVENT_CALLBACK_CONTINUE
      ensures !p.timer ==> Replied(a, tests, p.replies, replies)
      ensures Jumps(timer.ops) == Jumps(p.ops) + Clocked(tests, p.timer)
    {
      hide Valid, Passing, Pass, Replied, Tested, Clocked, Kept, VerdictOf, Jumps;
      AllPassed(p, tests, heap[a].sockfd <= 0, Unregistered(a) in notes[|p.notes|..]);
      RefreshNoJump(timer.ops, a);
      UpdateTimer(a);
    }

    /**
     * The callbacks for what epoll reports of one channel: those due, in their order, until one of them breaks off,
     * drops the batch or has the channel unregistered. The clock jumps once for a clock event that could be read.
     */
    method HandleEvent(a: Addr, reported: set<Kind>) returns (verdict: int, ghost tests: seq<Note>)
      requires Valid() && a in heap && !timer.sweeping
      modifies this, timer, timer.nodes
      ensures Valid() && !timer.sweeping && |sockets| == old(|sockets|)
      ensures verdict == EVENT_CALLBACK_DROPWAITED ==> needDeleted == {}
      ensures verdict != EVENT_CALLBACK_DROPWAITED ==> Kept(old(heap), heap)
      ensures old(notes) <= notes && Tested(notes) == Tested(old(notes)) + tests
      ensures (Drops(tests) <==> verdict == EVENT_CALLBACK_DROPWAITED) &&
              HandledOne((a, reported), tests, notes[|old(notes)|..])
      ensures old(heap[a].sock) < old(|sockets|) &&
              if old(Unfit(a)) then tests == [Skipped(a)] && verdict == EVENT_CALLBACK_CONTINUE
              else
                && Pass(a, CallsDue(reported), tests, Unregistered(a) in notes[|old(notes)|..])
                && verdict == VerdictOf(tests[|tests| - 1])
                && (verdict == EVENT_CALLBACK_DROPWAITED || Refreshed(a))
                && (old(heap[a].sock) != TIMER ==> Replied(a, tests, old(replies), replies))
      ensures Jumps(timer.ops) == Jumps(old(timer.ops)) + Clocked(tests, old(heap[a].sock) == TIMER)
    {
      hide Sound, Explained, Pass, Passing, Replied, Kept, Refreshed, Tested, Clocked, Jumps, CallsDue, VerdictOf;
      NotMarked(View(), a);
      if heap[a].sockfd <= 0 || sockets[heap[a].sock].fd < 0 {
        Explain(notes, LivesOf(View()), Skipped(a), LivesOf(View()));
        TestedExtend(notes, Skipped(a));
        notes := notes + [Skipped(a)];
        KeptItself(heap);
        SkipCounts(a, heap[a].sock == TIMER);
        return EVENT_CALLBACK_CONTINUE, [Skipped(a)];
      }
      ghost var p := Turn(a, heap[a].sock == TIMER, reported, heap, notes, timer.ops, replies);
      Begun(p);
      verdict, tests := HandleReported(a, reported, p);
      if verdict != EVENT_CALLBACK_CONTINUE {
        PassWeaker(a, CallsDue(reported), tests, Unregistered(a) in notes[|old(notes)|..]);
        return;
      }
      if heap[a].sockfd <= 0 {
        Tombstone(old(heap), heap, a);
        NotMarked(View(), a);
        GoneNoted(old(notes), old(View()), notes, View(), a);
      }
      EndPass(a, p, tests);
    }

    /** What epoll_wait stores: the channels on whose descriptors something is reported. */
    method Poll(batch: seq<(int, set<Kind>)>) returns (events: seq<(Addr, set<Kind>)>)
      requires Valid()
      ensures events == Polled(interest, batch)
      ensures forall i :: 0 <= i < |events| ==> InUse(View(), events[i].0)
    {
      events := [];
      assert batch[..0] == [];
      for i := 0 to |batch|
        invariant events == Polled(interest, batch[..i])
        invariant forall k :: 0 <= k < |events| ==> InUse(View(), events[k].0)
      {
        assert batch[..i + 1][..i] == batch[..i];
        if batch[i].0 in interest {
          Reported(View(), batch[i].0);
          events := events + [(interest[batch[i].0], batch[i].1)];
        }
      }
      assert batch[..|batch|] == batch;
    }

    /** What the passes of a batch have left in the notes since then. */
    ghost predicate Answered(events: seq<(Addr, set<Kind>)>, passes: seq<seq<Note>>, since: seq<Note>)
      reads this
    {
      && since <= notes && Tested(notes) == Tested(since) + Joint(passes)
      && Handled(events, passes, notes[|since|..])
    }

    /** One more event of a batch. */
    method HandleNext(events: seq<(Addr, set<Kind>)>, i: nat, ghost before: seq<seq<Note>>, ghost since: seq<Note>)
      returns (verdict: int, ghost passes: seq<seq<Note>>)
      requires Valid() && !timer.sweeping && i < |events| && events[i].0 in heap
      requires |before| == i && Answered(events, before, since)
      modifies this, timer, timer.nodes
      ensures Valid() && !timer.sweeping && |sockets| == old(|sockets|)
      ensures |passes| == i + 1 && passes[..i] == before && Answered(events, passes, since)
      ensures Drops(passes[i]) <==> verdict == EVENT_CALLBACK_DROPWAITED
      ensures if verdict == EVENT_CALLBACK_DROPWAITED then needDeleted == {} else old(heap).Keys <= heap.Keys
    {
      hide Valid, Handled, HandledOne, Tested, Joint, Drops, Kept, Pass, CallsDue, Unfit, VerdictOf;
      ghost var tests;
      verdict, tests := HandleEvent(events[i].0, events[i].1);
      HandledOn(events, before, tests, old(notes)[|since|..], notes[|old(notes)|..]);
      assert notes[|since|..] == old(notes)[|since|..] + notes[|old(notes)|..];
      passes := before + [tests];
      if verdict != EVENT_CALLBACK_DROPWAITED {
        KeptKeys(old(heap), heap);
      }
    }

    /**
     * waitChannel: one batch of events. The callbacks are those due for what is reported, in the order reported; every
     * channel looked at is still allocated and every one called back is in use, whatever the callbacks do; after the
     * batch nothing is left pending.
     */
    method WaitChannel(polled: Option<seq<(int, set<Kind>)>>) returns (ret: int, ghost passes: seq<seq<Note>>)
      requires Valid() && !timer.sweeping && needDeleted == {}
      modifies this, timer, timer.nodes
      ensures Valid() && !timer.sweeping && |sockets| == old(|sockets|) && needDeleted == {}
      ensures (polled.None? ==> ret == -1) && old(notes) <= notes
      ensures polled.Some? ==>
                var events := Polled(old(interest), polled.value);
                && Answered(events, passes, old(notes))
                && (forall i :: 0 <= i < |passes| - 1 ==> !Drops(passes[i]))
                && if passes != [] && Drops(passes[|passes| - 1]) then ret == EVENT_CALLBACK_DROPWAITED
                   else |passes| == |events| == ret
    {
      hide Valid, Handled, Tested, Joint, Drops, Polled;
      passes := [];
      if polled.None? {
        return -1, [];
      }
      var events := Poll(polled.value);
      NoneHandled(events, notes);
      var i := 0;
      while i < |events|
        invariant 0 <= i <= |events| && Valid() && !timer.sweeping && |sockets| == old(|sockets|)
        invariant forall k :: 0 <= k < |events| ==> events[k].0 in heap
        invariant |passes| == i && Answered(events, passes, old(notes))
        invariant forall k :: 0 <= k < i ==> !Drops(passes[k])
      {
        var verdict;
        verdict, passes := HandleNext(events, i, passes, old(notes));
        if verdict == EVENT_CALLBACK_DROPWAITED {
          return EVENT_CALLBACK_DROPWAITED, passes;
        }
        i := i + 1;
      }
      ghost var noted := notes;
      CleanNeedDeletedChannels();
      HandledYet(events, passes, noted[|old(notes)|..], notes[|noted|..]);
      assert notes[|old(notes)|..] == noted[|old(notes)|..] + notes[|noted|..];
      ret := |events|;
    }

    /** With nothing pending, every channel has been freed as often as it was unregistered. */
    lemma Balanced()
      requires Valid() && needDeleted == {}
      ensures LawfulNotes(Lives({}, {}), notes)
      ensures forall a :: Times(notes, Unregistered(a)) == Times(notes, Freed(a))
    {
      forall a
        ensures Times(notes, Unregistered(a)) == Times(notes, Freed(a))
      {
        FreedOnce(Lives({}, {}), notes, a);
      }
    }

    /** The batches, until epoll fails. */
    method Run(batches: seq<Option<seq<(int, set<Kind>)>>>) returns (n: nat)
      requires Valid() && !timer.sweeping && needDeleted == {}
      modifies this, timer, timer.nodes
      ensures Valid() && !timer.sweeping && needDeleted == {} && old(notes) <= notes
      ensures n <= |batches| && (forall i :: 0 <= i < n - 1 ==> batches[i].Some?)
      ensures n < |batches| ==> 0 < n && batches[n - 1].None?
    {
      hide Valid, Answered, Drops, Polled;
      var running := true;
      n := 0;
      while n < |batches| && running
        invariant Valid() && !timer.sweeping && needDeleted == {} && old(notes) <= notes
        invariant n <= |batches| && forall i :: 0 <= i < n - 1 ==> batches[i].Some?
        invariant if running then n > 0 ==> batches[n - 1].Some? else 0 < n && batches[n - 1].None?
      {
        var ret, _ := WaitChannel(batches[n]);
        running := ret != -1;
        n := n + 1;
      }
    }

    /**
     * loop, over any batches of events and any behaviour of the callbacks: the timer is registered first, then batches
     * are handled until epoll fails. The history of the channels is lawful, and between batches every channel has been
     * freed exactly as often as it was unregistered.
     */
    method Loop(batches: seq<Option<seq<(int, set<Kind>)>>>, wish: Addr, ok: bool) returns (n: nat)
      requires Valid() && !timer.sweeping && needDeleted == {}
      modifies this, timer, timer.nodes
      ensures Valid() && !timer.sweeping && needDeleted == {}
      ensures 0 <= old(sockets[TIMER].fd) && old(sockets[TIMER].channelptr).None? ==>
                |old(notes)| < |notes| && notes[|old(notes)|].Allocated?
      ensures n <= |batches| && (forall i :: 0 <= i < n - 1 ==> batches[i].Some?)
      ensures n < |batches| ==> 0 < n && batches[n - 1].None?
      ensures LawfulNotes(Lives({}, {}), notes)
      ensures forall a :: Times(notes, Unregistered(a)) == Times(notes, Freed(a))
    {
      assert TIMER < |sockets|;
      hide Valid, LawfulNotes, Times, Kept, Watched;
      var _ := RegisterChannel(TIMER, wish, ok);
      n := Run(batches);
      Balanced();
    }
  }
}

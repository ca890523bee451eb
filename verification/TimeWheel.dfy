/**
 * The time wheel of net/TimeWheelEvent.cpp: a circular list of nodes, each with a set of channels. Its meaning is a
 * clock that knows for every channel how many ticks are left to it.
 */
module TimeWheels {

  /** A channel pointer. */
  type Addr = nat

  // ---------------------------------------------------------------- the clock

  datatype Op =
    | Refresh(a: Addr)      // updateChannel
    | Erase(a: Addr)        // eraseChannel, or the removal that ends a timeout
    | Jump                  // the clock advances, and the sweep of the channels now due begins
    | Fire(a: Addr)         // the sweep times a channel out
    | Settle                // the sweep is over

  /** The ticks left to each channel; during a sweep those with none are due. */
  datatype Clock = Clock(size: nat, left: map<Addr, nat>, sweeping: bool)

  function Start(size: nat): Clock {
    Clock(size, map[], false)
  }

  predicate Due(c: Clock, a: Addr) {
    c.sweeping && a in c.left && c.left[a] == 0
  }

  predicate Possible(c: Clock, op: Op) {
    match op
    case Refresh(_) => true
    case Erase(_) => true
    case Jump => !c.sweeping && forall a :: a in c.left ==> 0 < c.left[a]
    case Fire(a) => Due(c, a)
    case Settle => c.sweeping && forall a :: a in c.left ==> !Due(c, a)
  }

  function Without(left: map<Addr, nat>, a: Addr): map<Addr, nat> {
    map x | x in left && x != a :: left[x]
  }

  function Tick(c: Clock, op: Op): Clock
    requires Possible(c, op)
  {
    match op
    case Refresh(a) => c.(left := c.left[a := if c.sweeping then 0 else c.size])
    case Erase(a) => c.(left := Without(c.left, a))
    case Jump => c.(sweeping := true, left := map x | x in c.left :: c.left[x] - 1)
    case Fire(_) => c
    case Settle => c.(sweeping := false)
  }

  predicate History(c: Clock, ops: seq<Op>)
    decreases |ops|
  {
    ops == [] || (Possible(c, ops[0]) && History(Tick(c, ops[0]), ops[1..]))
  }

  function After(c: Clock, ops: seq<Op>): Clock
    requires History(c, ops)
    decreases |ops|
  {
    if ops == [] then c else After(Tick(c, ops[0]), ops[1..])
  }

  lemma {:induction false} HistoryExtend(c: Clock, ops: seq<Op>, op: Op)
    requires History(c, ops) && Possible(After(c, ops), op)
    ensures History(c, ops + [op]) && After(c, ops + [op]) == Tick(After(c, ops), op)
    decreases |ops|
  {
    hide Possible, Tick;
    if ops == [] {
      assert ops + [op] == [op];
      assert [op][1..] == [];
    } else {
      assert (ops + [op])[1..] == ops[1..] + [op];
      HistoryExtend(Tick(c, ops[0]), ops[1..], op);
    }
  }

  function Jumps(ops: seq<Op>): nat {
    if ops == [] then 0 else (if ops[0].Jump? then 1 else 0) + Jumps(ops[1..])
  }

  /** Whether ops refresh, erase or time out a. */
  predicate Touches(ops: seq<Op>, a: Addr) {
    exists i :: 0 <= i < |ops| && (ops[i] == Refresh(a) || ops[i] == Erase(a) || ops[i] == Fire(a))
  }

  /** Left alone, a channel loses one tick at every jump, and there is no jump past its last. */
  lemma {:induction false} TicksAway(c: Clock, ops: seq<Op>, a: Addr)
    requires History(c, ops) && !Touches(ops, a) && a in c.left
    ensures var d := After(c, ops); a in d.left && d.size == c.size && d.left[a] + Jumps(ops) == c.left[a]
    decreases |ops|
  {
    if ops != [] {
      assert ops[0] != Refresh(a) && ops[0] != Erase(a);
      assert forall i :: 0 <= i < |ops[1..]| ==> ops[1..][i] == ops[i + 1];
      TicksAway(Tick(c, ops[0]), ops[1..], a);
    }
  }

  /**
   * The timeout of a channel refreshed outside a sweep, and neither refreshed nor erased since: it is timed out, if at
   * all, with exactly as many jumps between as the wheel has nodes; no jump beyond that happens first; and the sweep of
   * that jump does not end without it.
   */
  lemma TimesOutExactly(c: Clock, a: Addr, ops: seq<Op>)
    requires !c.sweeping && 0 < c.size && History(Tick(c, Refresh(a)), ops) && !Touches(ops, a)
    ensures var d := After(Tick(c, Refresh(a)), ops);
            && Jumps(ops) <= c.size
            && (Possible(d, Fire(a)) <==> Jumps(ops) == c.size && d.sweeping)
            && (Jumps(ops) == c.size ==> !Possible(d, Settle) && !Possible(d, Jump))
  {
    TicksAway(Tick(c, Refresh(a)), ops, a);
  }

  /**
   * A channel refreshed during a sweep is due in that very sweep: the sweep does not end before it is timed out or
   * erased.
   */
  lemma RefreshedInSweep(c: Clock, a: Addr, ops: seq<Op>)
    requires c.sweeping && History(Tick(c, Refresh(a)), ops) && !Touches(ops, a)
    ensures var d := After(Tick(c, Refresh(a)), ops); d.sweeping ==> Possible(d, Fire(a)) && !Possible(d, Settle)
    ensures Jumps(ops) == 0
  {
    TicksAway(Tick(c, Refresh(a)), ops, a);
  }

  // ---------------------------------------------------------------- the wheel

  class TimeNode {
    var channelSet: set<Addr>
    var next: TimeNode?

    constructor ()
      ensures channelSet == {} && next == null
    {
      channelSet, next := {}, null;
    }
  }

  /** The clock a wheel shows, whose channels are at these distances from the current node. */
  function ClockOf(size: nat, place: map<Addr, nat>, sweeping: bool): Clock {
    Clock(size, map a | a in place :: if place[a] == 0 then (if sweeping then 0 else size) else place[a], sweeping)
  }

  /** The operations so far explain the clock. */
  ghost predicate Recorded(ops: seq<Op>, c: Clock) {
    History(Start(c.size), ops) && After(Start(c.size), ops) == c
  }

  lemma Record(ops: seq<Op>, c: Clock, op: Op, d: Clock)
    requires Recorded(ops, c) && Possible(c, op) && d == Tick(c, op)
    ensures Recorded(ops + [op], d)
  {
    HistoryExtend(Start(c.size), ops, op);
  }

  function Shifted(place: map<Addr, nat>, size: nat): map<Addr, nat>
    requires 0 < size
  {
    map x | x in place :: if place[x] == 0 then size - 1 else place[x] - 1
  }

  lemma ClockRefresh(size: nat, place: map<Addr, nat>, sweeping: bool, a: Addr)
    ensures ClockOf(size, Without(place, a)[a := 0], sweeping) == Tick(ClockOf(size, place, sweeping), Refresh(a))
    ensures Without(place, a)[a := 0] == place[a := 0]
  {
    assert Without(place, a)[a := 0] == place[a := 0];
    assert ClockOf(size, place[a := 0], sweeping).left ==
           ClockOf(size, place, sweeping).left[a := if sweeping then 0 else size];
  }

  lemma ClockErase(size: nat, place: map<Addr, nat>, sweeping: bool, a: Addr)
    ensures ClockOf(size, Without(place, a), sweeping) == Tick(ClockOf(size, place, sweeping), Erase(a))
  {
    assert ClockOf(size, Without(place, a), sweeping).left == Without(ClockOf(size, place, sweeping).left, a);
  }

  lemma ClockJump(size: nat, place: map<Addr, nat>)
    requires 0 < size
    ensures Possible(ClockOf(size, place, false), Jump)
    ensures ClockOf(size, Shifted(place, size), true) == Tick(ClockOf(size, place, false), Jump)
  {
    assert ClockOf(size, Shifted(place, size), true).left ==
           map x | x in ClockOf(size, place, false).left :: ClockOf(size, place, false).left[x] - 1;
  }

  lemma ClockSettle(size: nat, place: map<Addr, nat>)
    requires forall a :: a in place ==> place[a] != 0
    ensures Possible(ClockOf(size, place, true), Settle)
    ensures ClockOf(size, place, false) == Tick(ClockOf(size, place, true), Settle)
  {
    assert ClockOf(size, place, false).left == ClockOf(size, place, true).left;
  }

  class TimeWheel {
    var current: TimeNode
    ghost const nodes: set<TimeNode>
    ghost var ring: seq<TimeNode>          // the nodes, from the current one on
    ghost var place: map<Addr, nat>        // the distance of each channel's node from the current one
    ghost var sweeping: bool
    ghost var ops: seq<Op>                 // all that has happened to the wheel

    /** The nodes form one circle. */
    ghost predicate Circle()
      reads `current, `ring, nodes
    {
      && 0 < |ring| && ring[0] == current && (forall i :: 0 <= i < |ring| ==> ring[i] in nodes)
      && (forall i, j :: 0 <= i < j < |ring| ==> ring[i] != ring[j])
      && (forall i :: 0 <= i < |ring| - 1 ==> ring[i].next == ring[i + 1])
      && ring[|ring| - 1].next == ring[0]
    }

    /** A channel is in the node of its place, and in no other. */
    ghost predicate Placed()
      reads `ring, `place, nodes
    {
      && (forall a :: a in place ==> place[a] < |ring|)
      && (forall i,
          a :: 0 <= i < |ring| && ring[i] in nodes ==> (a in ring[i].channelSet <==> a in place && place[a] == i))
    }

    ghost predicate Structure()
      reads `current, `ring, `place, nodes
    {
      Circle() && Placed()
    }

    ghost predicate Valid()
      reads this, nodes
    {
      Structure() && Recorded(ops, View())
    }

    ghost function View(): Clock
      reads this
    {
      ClockOf(|ring|, place, sweeping)
    }

    /** init */
    constructor (nodeNum: int)
      ensures Valid() && fresh(nodes) && ops == [] && place == map[] && !sweeping
      ensures |ring| == if nodeNum < 1 then 1 else nodeNum
    {
      var head := new TimeNode();
      var num, cur := nodeNum, head;
      ghost var made := [head];
      while num > 1
        invariant num <= nodeNum && (num > 1 || num == 1 || num == nodeNum)
        invariant |made| == (if nodeNum < 1 then 1 else nodeNum - num + 1) && fresh(made)
        invariant made[0] == head && made[|made| - 1] == cur
        invariant forall i, j :: 0 <= i < j < |made| ==> made[i] != made[j]
        invariant forall i :: 0 <= i < |made| - 1 ==> made[i].next == made[i + 1]
        invariant forall i :: 0 <= i < |made| ==> made[i].channelSet == {}
      {
        num := num - 1;
        var node := new TimeNode();
        cur.next := node;
        cur := node;
        made := made + [node];
      }
      cur.next := head;
      current, ring, nodes := head, made, set n | n in made;
      place, sweeping, ops := map[], false, [];
      new;
      assert View().left == map[];
    }

    /** eraseChannel: looks through the nodes from the current one on, and stops at the first find. */
    method Remove(cnptr: Addr)
      requires Structure()
      modifies nodes, `place
      ensures Structure() && place == Without(old(place), cnptr)
    {
      var cur := current;
      ghost var i := 0;
      while true
        invariant 0 <= i < |ring| && cur == ring[i]
        invariant Structure() && place == old(place)
        invariant forall j :: 0 <= j < i ==> cnptr !in ring[j].channelSet
        invariant forall n <- ring :: n.channelSet == old(n.channelSet)
        decreases |ring| - i
      {
        if cnptr in cur.channelSet {
          cur.channelSet := cur.channelSet - {cnptr};
          place := Without(place, cnptr);
          return;
        }
        cur := cur.next;
        assert i < |ring| - 1 ==> cur == ring[i + 1] != ring[0];
        if cur == current {
          ghost var k := if cnptr in place then place[cnptr] else 0;
          assert cnptr !in ring[k].channelSet;
          assert Without(place, cnptr) == place;
          break;
        }
        i := i + 1;
      }
    }

    /** Puts a channel into the current node. */
    method Insert(cnptr: Addr)
      requires Structure() && cnptr !in place
      modifies nodes, `place
      ensures Structure() && place == old(place)[cnptr := 0]
    {
      current.channelSet := current.channelSet + {cnptr};
      place := place[cnptr := 0];
    }

    /** Goes to the next node. */
    method Turn()
      requires Structure()
      modifies `current, `ring, `place
      ensures Structure() && place == Shifted(old(place), |ring|)
      ensures |ring| == |old(ring)| && ring == old(ring)[1..] + [old(ring)[0]]
    {
      assert current.next == if |ring| == 1 then ring[0] else ring[1];
      current := current.next;
      ring := ring[1..] + [ring[0]];
      place := Shifted(place, |ring|);
    }

    /** eraseChannel, recorded */
    method EraseChannel(cnptr: Addr)
      requires Valid()
      modifies nodes, `place, `ops
      ensures Valid() && ops == old(ops) + [Erase(cnptr)]
      ensures place == Without(old(place), cnptr)
    {
      hide Structure, Recorded, ClockOf, Tick;
      ghost var c := View();
      Remove(cnptr);
      ClockErase(|ring|, old(place), sweeping, cnptr);
      Record(ops, c, Erase(cnptr), View());
      ops := ops + [Erase(cnptr)];
    }

    /** updateChannel, for a channel that isSkipChannel says to skip or not. */
    method UpdateChannel(cnptr: Addr, skip: bool)
      requires Valid()
      modifies nodes, `place, `ops
      ensures Valid() && ops == old(ops) + if skip then [] else [Refresh(cnptr)]
      ensures place == if skip then old(place) else old(place)[cnptr := 0]
    {
      hide Structure, Recorded, ClockOf, Tick;
      if skip {
        return;
      }
      ghost var c := View();
      Remove(cnptr);
      Insert(cnptr);
      ClockRefresh(|ring|, old(place), sweeping, cnptr);
      Record(ops, c, Refresh(cnptr), View());
      ops := ops + [Refresh(cnptr)];
    }

    /** clockJump, up to the sweep. */
    method Advance()
      requires Valid() && !sweeping
      modifies `current, `ring, `place, `sweeping, `ops
      ensures Valid() && sweeping && ops == old(ops) + [Jump]
      ensures |ring| == |old(ring)| && ring == old(ring)[1..] + [old(ring)[0]]
      ensures place.Keys == old(place.Keys)
    {
      hide Recorded, ClockOf, Tick, Placed;
      ghost var c := View();
      ghost var size := |ring|;
      ClockJump(size, place);
      Turn();
      sweeping := true;
      Record(ops, c, Jump, View());
      ops := ops + [Jump];
    }

    /** The sweep takes a channel of the current node, to time it out. */
    ghost method Expire(cnptr: Addr)
      requires Valid() && sweeping && cnptr in current.channelSet
      modifies `ops
      ensures Valid() && ops == old(ops) + [Fire(cnptr)]
    {
      hide Recorded;
      assert cnptr in ring[0].channelSet && place[cnptr] == 0;
      Record(ops, View(), Fire(cnptr), View());
      ops := ops + [Fire(cnptr)];
    }

    /** The end of a timeout: the channel leaves the current node. */
    method EraseHere(cnptr: Addr)
      requires Valid() && (cnptr in place ==> place[cnptr] == 0)
      modifies nodes, `place, `ops
      ensures Valid() && ops == old(ops) + [Erase(cnptr)]
      ensures place == Without(old(place), cnptr)
    {
      hide Recorded, ClockOf, Tick;
      ghost var c := View();
      current.channelSet := current.channelSet - {cnptr};
      place := Without(place, cnptr);
      ClockErase(|ring|, old(place), sweeping, cnptr);
      Record(ops, c, Erase(cnptr), View());
      ops := ops + [Erase(cnptr)];
    }

    /** What the current node holds. */
    lemma Here(a: Addr)
      requires Structure()
      ensures a in current.channelSet <==> a in place && place[a] == 0
    {
      assert a in ring[0].channelSet <==> a in place && place[a] == 0;
    }

    lemma HereAll()
      requires Structure()
      ensures forall a :: a in current.channelSet <==> a in place && place[a] == 0
    {
      forall a
        ensures a in current.channelSet <==> a in place && place[a] == 0
      {
        Here(a);
      }
    }

    /** The end of the sweep. */
    ghost method EndSweep()
      requires Valid() && sweeping && current.channelSet == {}
      modifies `ops, `sweeping
      ensures Valid() && !sweeping && ops == old(ops) + [Settle]
    {
      hide Recorded, ClockOf;
      assert ring[0].channelSet == {};
      ClockSettle(|ring|, place);
      ghost var c := View();
      sweeping := false;
      Record(ops, c, Settle, View());
      ops := ops + [Settle];
    }
  }
}

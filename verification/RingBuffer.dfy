/**
 * The ring buffer of net/RingBuffer.cpp over its byte slab, with the file it is filled from and the socket it is
 * drained to. One slot is reserved, and either pointer may rest one past the end of the slab.
 */
module RingBuffers {

  const RINGBUFFER_MAX_LENGTH: nat := 65536
  const RINGBUFFER_MIN_LENGTH: nat := 1024
  const RINGBUFFER_NO_DATA: int := -2
  const RINGBUFFER_NO_SPACE: int := -3
  const TIGERSO_IO_ERROR: int := -1

  function Min(a: nat, b: nat): nat {
    if a < b then a else b
  }

  /** A regular file being read from front to back; reading past its end closes it. */
  class File {
    const content: seq<char>
    var pos: nat
    var readDone: bool

    predicate Valid()
      reads this
    {
      pos <= |content|
    }

    constructor (content: seq<char>)
      ensures this.content == content && pos == 0 && !readDone && Valid()
    {
      this.content, pos, readDone := content, 0, false;
    }

    /** continuousReadOut: a full read, or what is left; an error once the file is closed. */
    method ContinuousReadOut(len: nat) returns (n: int, bytes: seq<char>)
      requires Valid()
      modifies this
      ensures Valid()
      ensures old(readDone) || len == 0 ==> n < 0 && bytes == [] && pos == old(pos) && readDone == old(readDone)
      ensures !old(readDone) && 0 < len ==>
                n == Min(len, |content| - old(pos)) && bytes == content[old(pos)..old(pos) + n] &&
                  pos == old(pos) + n &&
                (readDone <==> n < len)
    {
      if readDone || len == 0 {
        return -1, [];
      }
      n := Min(len, |content| - pos);
      bytes := content[pos..pos + n];
      pos := pos + n;
      readDone := n < len;
    }
  }

  /** How a send comes out: some bytes are taken, at least one when any is offered; or none for now; or an error. */
  datatype SendResult = Took(more: nat) | Recall | Error

  /** A non-blocking socket. The schedule says how its coming sends go; when it is used up, they recall. */
  class Socket {
    var sent: seq<char>
    var schedule: seq<SendResult>

    constructor (schedule: seq<SendResult>)
      ensures sent == [] && this.schedule == schedule
    {
      this.sent, this.schedule := [], schedule;
    }

    method Send(bytes: seq<char>) returns (r: SendResult, n: nat)
      modifies this
      ensures r == if old(schedule) == [] then Recall else old(schedule)[0]
      ensures n == if r.Took? then Min(r.more + 1, |bytes|) else 0
      ensures sent == old(sent) + bytes[..n]
      ensures schedule == if old(schedule) == [] then [] else old(schedule)[1..]
    {
      r := if schedule == [] then Recall else schedule[0];
      n := if r.Took? then Min(r.more + 1, |bytes|) else 0;
      sent := sent + bytes[..n];
      schedule := if schedule == [] then [] else schedule[1..];
    }
  }

  /** How a drain ends: with nothing left, by a recall, or by an error. */
  datatype Stop = Emptied | Suspended | Broken

  /** What a drain does: how many bytes it sends, what it leaves of the schedule, and how it ends. */
  datatype Drain = Drain(taken: nat, schedule: seq<SendResult>, stop: Stop)

  /** A drain of n bytes that lie in one run. */
  function Drained(schedule: seq<SendResult>, n: nat): (d: Drain)
    ensures d.taken <= n && (d.stop.Emptied? <==> d.taken == n)
  {
    if n == 0 then Drain(0, schedule, Emptied)
    else if schedule == [] then Drain(0, [], Suspended)
    else
      match schedule[0]
      case Recall => Drain(0, schedule[1..], Suspended)
      case Error => Drain(0, schedule[1..], Broken)
      case Took(more) =>
        var k := Min(more + 1, n);
        var d := Drained(schedule[1..], n - k);
        d.(taken := k + d.taken)
  }

  predicate NoError(schedule: seq<SendResult>) {
    forall i :: 0 <= i < |schedule| ==> !schedule[i].Error?
  }

  /** How many sends take something. */
  function Tooks(schedule: seq<SendResult>): nat {
    if schedule == [] then 0 else (if schedule[0].Took? then 1 else 0) + Tooks(schedule[1..])
  }

  function Recalls(schedule: seq<SendResult>): nat {
    if schedule == [] then 0 else (if schedule[0].Recall? then 1 else 0) + Recalls(schedule[1..])
  }

  /**
   * From one schedule to a later one without errors: every send that took something took a byte at least, and no send
   * recalled, save for the one that suspended; unless the schedule is used up.
   */
  predicate Progress(before: seq<SendResult>, after: seq<SendResult>, bytes: nat, suspended: bool) {
    NoError(before) ==>
      NoError(after) && Tooks(before) <= Tooks(after) + bytes &&
      if suspended then after == [] || Recalls(before) == Recalls(after) + 1 else Recalls(before) == Recalls(after)
  }

  lemma {:induction false} DrainedProgress(schedule: seq<SendResult>, n: nat)
    ensures var d := Drained(schedule, n);
            Progress(schedule, d.schedule, d.taken, d.stop.Suspended?) && (NoError(schedule) ==> !d.stop.Broken?)
    decreases n
  {
    if n > 0 && schedule != [] && schedule[0].Took? {
      DrainedProgress(schedule[1..], n - Min(schedule[0].more + 1, n));
    }
  }

  /** The bytes between the read position r and the write position w of a slab, oldest first. */
  function Held(slab: seq<char>, r: nat, w: nat): (c: seq<char>)
    requires r <= |slab| && w <= |slab|
    ensures |c| == if w >= r then w - r else |slab| - r + w
  {
    if w >= r then slab[r..w] else slab[r..] + slab[..w]
  }

  /** A slab after a memcpy of bytes to the position at. */
  function Put(slab: seq<char>, at: nat, bytes: seq<char>): (t: seq<char>)
    requires at + |bytes| <= |slab|
    ensures |t| == |slab|
  {
    slab[..at] + bytes + slab[at + |bytes|..]
  }

  lemma HeldPutRight(slab: seq<char>, r: nat, w: nat, bytes: seq<char>)
    requires r <= w && w + |bytes| <= |slab|
    ensures Held(Put(slab, w, bytes), r, w + |bytes|) == Held(slab, r, w) + bytes
  {
  }

  lemma HeldPutWrapped(slab: seq<char>, r: nat, w: nat, bytes: seq<char>)
    requires w < r <= |slab| && w + |bytes| < r
    ensures Held(Put(slab, w, bytes), r, w + |bytes|) == Held(slab, r, w) + bytes
  {
  }

  lemma HeldPutAround(slab: seq<char>, r: nat, w: nat, right: seq<char>, left: seq<char>)
    requires r <= w <= |slab| && |right| == |slab| - w && |left| < r
    ensures Held(Put(Put(slab, w, right), 0, left), r, |left|) == Held(slab, r, w) + (right + left)
  {
    var t := Put(Put(slab, w, right), 0, left);
    assert t[r..] == slab[r..w] + right;
    assert t[..|left|] == left;
  }

  lemma Sent(sent: seq<char>, slab: seq<char>, from: nat, offered: nat, n: nat, rest: seq<char>)
    requires n <= offered && from + offered <= |slab|
    ensures slab[from..from + offered][..n] == slab[from..from + n]
    ensures sent + slab[from..from + n] + rest == sent + (slab[from..from + n] + rest)
    ensures n == 0 ==> slab[from..from + n] == [] && sent + [] == sent
  {
  }

  /** A read position advanced up to the end of the slab, taken modulo the capacity. */
  function Wrap(x: nat, capacity: nat): (y: nat)
    requires 0 < capacity && x <= capacity
    ensures y == if x == capacity then 0 else x
  {
    x % capacity
  }

  /** Sending n bytes of the run at r, and wrapping the read position around the slab. */
  lemma HeldSent(slab: seq<char>, r: nat, w: nat, n: nat)
    requires r <= |slab| && w < |slab| && r != w
    requires n <= if w > r then w - r else |slab| - r
    ensures Held(slab, r, w) == slab[r..r + n] + Held(slab, Wrap(r + n, |slab|), w)
  {
  }

  class RingBuffer {
    var buffer: array<char>
    var readPtr: nat
    var writePtr: nat
    var capacity: nat

    predicate Valid()
      reads this
    {
      RINGBUFFER_MIN_LENGTH < capacity == buffer.Length && readPtr <= capacity && writePtr <= capacity &&
      !(readPtr == 0 && writePtr == capacity)
    }

    /** The bytes in the buffer, oldest first. */
    function Contents(): (c: seq<char>)
      requires Valid()
      reads this, buffer
      ensures |c| == capacity - 1 - Space() < capacity
    {
      Held(buffer[..], readPtr, writePtr)
    }

    function Space(): nat
      requires Valid()
      reads this
    {
      if writePtr >= readPtr then capacity - (writePtr - readPtr) - 1 else readPtr - writePtr - 1
    }

    function Size(): nat
      requires Valid()
      reads this
    {
      capacity - Space() - 1
    }

    constructor (len: nat)
      ensures Valid() && fresh(buffer) && Contents() == [] && readPtr == 0 && writePtr == 0
      ensures capacity - 1 == if len > RINGBUFFER_MAX_LENGTH then RINGBUFFER_MAX_LENGTH
                              else if len < RINGBUFFER_MIN_LENGTH then RINGBUFFER_MIN_LENGTH else len
    {
      var n := if len > RINGBUFFER_MAX_LENGTH then RINGBUFFER_MAX_LENGTH
               else if len < RINGBUFFER_MIN_LENGTH then RINGBUFFER_MIN_LENGTH else len;
      capacity := n + 1;
      buffer := new char[n + 1](_ => '\0');
      readPtr, writePtr := 0, 0;
    }

    method Clear()
      requires Valid()
      modifies this`readPtr, this`writePtr
      ensures Valid() && Contents() == [] && readPtr == writePtr == 0
    {
      readPtr, writePtr := 0, 0;
    }

    /** memcpy to the slab. */
    method CopyIn(at: nat, bytes: seq<char>)
      requires at + |bytes| <= buffer.Length
      modifies buffer
      ensures buffer[..] == Put(old(buffer[..]), at, bytes)
    {
      var i := 0;
      while i < |bytes|
        invariant 0 <= i <= |bytes|
        invariant buffer[..] == Put(old(buffer[..]), at, bytes[..i])
      {
        buffer[at + i] := bytes[i];
        i := i + 1;
      }
      assert bytes[..i] == bytes;
    }

    /** Copies bytes for which there is space behind the write pointer, around the end of the slab when need be. */
    method Append(bytes: seq<char>)
      requires Valid() && bytes != [] && |bytes| <= Space()
      modifies this`writePtr, buffer
      ensures Valid() && Contents() == old(Contents()) + bytes
      ensures old(writePtr) + |bytes| <= capacity ==> writePtr == old(writePtr) + |bytes|
    {
      ghost var slab, w := buffer[..], writePtr;
      hide Held, Put;
      if writePtr >= readPtr {
        var right := capacity - writePtr;
        if |bytes| <= right {
          CopyIn(writePtr, bytes);
          HeldPutRight(slab, readPtr, w, bytes);
          writePtr := writePtr + |bytes|;
        } else {
          CopyIn(writePtr, bytes[..right]);
          CopyIn(0, bytes[right..]);
          HeldPutAround(slab, readPtr, w, bytes[..right], bytes[right..]);
          assert bytes[..right] + bytes[right..] == bytes;
          writePtr := |bytes| - right;
        }
      } else {
        CopyIn(writePtr, bytes);
        HeldPutWrapped(slab, readPtr, w, bytes);
        writePtr := writePtr + |bytes|;
      }
    }

    /** writeIn: takes as many bytes as there is space for. */
    method WriteIn(bytes: seq<char>) returns (n: int)
      requires Valid()
      modifies this`writePtr, buffer
      ensures Valid()
      ensures bytes != [] ==> n == Min(|bytes|, old(Space())) && Contents() == old(Contents()) + bytes[..n]
      ensures bytes == [] ==>
                n == (if old(Space()) == 0 then 0 else RINGBUFFER_NO_DATA) && Contents() == old(Contents())
      ensures 0 <= n && old(writePtr) + n <= capacity ==> writePtr == old(writePtr) + n
    {
      if Space() == 0 {
        assert Contents() + bytes[..0] == Contents();
        return 0;
      }
      if bytes == [] {
        return RINGBUFFER_NO_DATA;
      }
      n := Min(|bytes|, Space());
      Append(bytes[..n]);
    }

    /** Fills the free slots from the write pointer to the right end, then those from the left end on. */
    method FillAround(file: File) returns (n: int)
      requires Valid() && file.Valid() && writePtr < capacity && !file.readDone && 0 < Space() && writePtr >= readPtr
      modifies this`writePtr, buffer, file
      ensures Valid() && file.Valid()
      ensures n == Min(old(Space()), |file.content| - old(file.pos)) && file.pos == old(file.pos) + n
      ensures Contents() == old(Contents()) + file.content[old(file.pos)..file.pos]
      ensures file.readDone ==> file.pos == |file.content|
      ensures old(readPtr) == 0 ==> writePtr < capacity
    {
      hide Held, Put;
      ghost var slab, w, start := buffer[..], writePtr, file.pos;
      var left := readPtr - 1;
      var right := if left >= 0 then capacity - writePtr else capacity - writePtr - 1;
      left := if left >= 0 then left else 0;
      var readn, bytes := file.ContinuousReadOut(right);
      if readn < 0 {
        return TIGERSO_IO_ERROR;
      }
      CopyIn(writePtr, bytes);
      HeldPutRight(slab, readPtr, w, bytes);
      writePtr := writePtr + readn;
      if readn < right || left == 0 {
        return readn;
      }
      ghost var first := bytes;
      readn, bytes := file.ContinuousReadOut(left);
      if readn < 0 {
        return TIGERSO_IO_ERROR;
      }
      CopyIn(0, bytes);
      HeldPutAround(slab, readPtr, w, first, bytes);
      assert first + bytes == file.content[start..file.pos];
      writePtr := readn;
      n := right + readn;
    }

    /** writeInFromFile: fills the free slots from the file. */
    method WriteInFromFile(file: File) returns (n: int)
      requires Valid() && file.Valid() && writePtr < capacity
      modifies this`writePtr, buffer, file
      ensures Valid() && file.Valid()
      ensures old(Space()) == 0 ==> n == 0 && Contents() == old(Contents()) && file.pos == old(file.pos)
      ensures 0 < old(Space()) && old(file.readDone) ==>
                n == TIGERSO_IO_ERROR && Contents() == old(Contents()) && file.pos == old(file.pos)
      ensures 0 < old(Space()) && !old(file.readDone) ==>
                n == Min(old(Space()), |file.content| - old(file.pos)) && file.pos == old(file.pos) + n &&
                Contents() == old(Contents()) + file.content[old(file.pos)..file.pos] &&
                (file.readDone ==> file.pos == |file.content|)
      ensures old(readPtr) == 0 ==> writePtr < capacity
    {
      hide Held, Put;
      if Space() == 0 {
        return 0;
      }
      ghost var slab, w := buffer[..], writePtr;
      if file.readDone {
        return TIGERSO_IO_ERROR;                 // what the first read of either branch comes to
      }
      if writePtr >= readPtr {
        n := FillAround(file);
      } else {
        var bytes;
        n, bytes := file.ContinuousReadOut(Space());
        if n < 0 {
          return TIGERSO_IO_ERROR;
        }
        CopyIn(writePtr, bytes);
        HeldPutWrapped(slab, readPtr, w, bytes);
        writePtr := writePtr + n;
      }
    }

    /** readOut: hands out the oldest bytes, at most len of them. */
    method ReadOut(len: nat) returns (n: int, bytes: seq<char>)
      requires Valid()
      modifies this`readPtr
      ensures Valid()
      ensures 0 < len ==>
                n == Min(len, old(Size())) && bytes == old(Contents())[..n] && Contents() == old(Contents())[n..]
      ensures len == 0 ==> bytes == [] && Contents() == old(Contents())
    {
      if readPtr == writePtr {
        return 0, [];
      }
      if len == 0 {
        return RINGBUFFER_NO_SPACE, [];
      }
      var readn := Min(len, Size());
      if writePtr > readPtr {
        bytes := buffer[readPtr..readPtr + readn];
        readPtr := readPtr + readn;
      } else {
        var right := capacity - readPtr;
        if readn <= right {
          bytes := buffer[readPtr..readPtr + readn];
          readPtr := readPtr + readn;
        } else {
          bytes := buffer[readPtr..] + buffer[..readn - right];
          readPtr := readn - right;
        }
      }
      n := readn;
    }

    /** One send of the run at the read pointer. */
    method SendRun(sock: Socket) returns (r: SendResult)
      requires Valid() && writePtr < capacity && readPtr != writePtr
      modifies this`readPtr, sock
      ensures Valid() && sock.sent + Contents() == old(sock.sent) + old(Contents())
      ensures r.Took? ==> Size() < old(Size()) || (Size() == old(Size()) && old(readPtr) == capacity && readPtr == 0)
      ensures !r.Took? ==> readPtr == old(readPtr)
      ensures r == (if old(sock.schedule) == [] then Recall else old(sock.schedule)[0])
      ensures sock.schedule == if old(sock.schedule) == [] then [] else old(sock.schedule)[1..]
      ensures old(readPtr) < writePtr ==>
                readPtr <= writePtr && Size() == old(Size()) - if r.Took? then Min(r.more + 1, old(Size())) else 0
    {
      hide Held, Wrap, Space;
      HeldNow();
      var readn := if writePtr > readPtr then Size() else capacity - readPtr;
      var rn;
      ghost var slab, from := buffer[..], readPtr;
      r, rn := sock.Send(buffer[readPtr..readPtr + readn]);
      assert slab[from..from + readn] == buffer[from..from + readn];
      HeldSent(slab, from, writePtr, rn);
      ghost var wrapped := Wrap(from + rn, capacity);
      Sent(old(sock.sent), slab, from, readn, rn, Held(slab, wrapped, writePtr));
      if r.Took? {
        readPtr := Wrap(readPtr + rn, capacity);
        HeldNow();
      }
    }

    /** The size in terms of the pointers. */
    lemma HeldNow()
      requires Valid()
      ensures Size() == |Contents()|
      ensures Size() == if writePtr >= readPtr then writePtr - readPtr else capacity - readPtr + writePtr
      ensures Contents() == Held(buffer[..], readPtr, writePtr)
    {
    }

    /**
     * send2Socket: sends until the buffer is empty, then clears it; stops on a recall or an error. The write pointer
     * must not rest past the end of the slab.
     */
    method Send2Socket(sock: Socket) returns (n: int)
      requires Valid() && writePtr < capacity
      modifies this`readPtr, this`writePtr, sock
      ensures Valid() && writePtr < capacity
      ensures sock.sent + Contents() == old(sock.sent) + old(Contents())
      ensures (n == TIGERSO_IO_ERROR && Contents() != []) || n == |old(Contents())| - |Contents()|
      ensures n >= 0 && Contents() == [] && old(readPtr) != old(writePtr) ==> readPtr == writePtr == 0
      ensures readPtr == writePtr ==> Contents() == []
      ensures old(readPtr) <= old(writePtr) ==>
                var d := Drained(old(sock.schedule), |old(Contents())|);
                && readPtr <= writePtr && |old(Contents())| == d.taken + |Contents()| && sock.schedule == d.schedule
                && (n < 0 <==> d.stop.Broken?)
    {
      hide Held, Wrap;
      HeldNow();
      if readPtr == writePtr {
        return 0;
      }
      var dataSize := Size();
      ghost var all := sock.sent + Contents();
      while Size() > 0
        invariant Valid() && writePtr == old(writePtr) < capacity
        invariant sock.sent + Contents() == all
        invariant old(readPtr) <= old(writePtr) ==>
                    readPtr <= writePtr && Size() <= dataSize &&
                    var d := Drained(sock.schedule, Size());
                    Drained(old(sock.schedule), dataSize) == d.(taken := dataSize - Size() + d.taken)
        decreases Size(), readPtr == capacity
      {
        var result := SendRun(sock);
        if result.Error? {
          return TIGERSO_IO_ERROR;
        }
        if result.Recall? {
          return dataSize - Size();
        }
      }
      assert Contents() == [];
      Clear();
      n := dataSize;
    }
  }

  datatype Operation = Write(bytes: seq<char>) | Read(len: nat)

  /** A first-in first-out queue, what it has accepted, and what it has handed out. */
  datatype Queue = Queue(held: seq<char>, accepted: seq<char>, handedOut: seq<char>)

  /** A queue with that much room, after an operation: a write is cut off where the room ends. */
  function Operated(q: Queue, room: nat, operation: Operation): Queue
    requires |q.held| <= room
  {
    match operation
    case Write(bytes) =>
      var n := Min(|bytes|, room - |q.held|);
      Queue(q.held + bytes[..n], q.accepted + bytes[..n], q.handedOut)
    case Read(len) =>
      var n := Min(len, |q.held|);
      Queue(q.held[n..], q.accepted, q.handedOut + q.held[..n])
  }

  function OperatedAll(q: Queue, room: nat, operations: seq<Operation>): (r: Queue)
    requires |q.held| <= room
    ensures |r.held| <= room
  {
    if operations == [] then q
    else Operated(OperatedAll(q, room, operations[..|operations| - 1]), room, operations[|operations| - 1])
  }

  /** What was held and accepted is what was handed out and what is still held, in order. */
  lemma {:induction false} FirstInFirstOut(q: Queue, room: nat, operations: seq<Operation>, start: seq<char>)
    requires |q.held| <= room && start + q.accepted == q.handedOut + q.held
    ensures var r := OperatedAll(q, room, operations); start + r.accepted == r.handedOut + r.held
    decreases |operations|
  {
    if operations != [] {
      var before := operations[..|operations| - 1];
      FirstInFirstOut(q, room, before, start);
      var r := OperatedAll(q, room, before);
      match operations[|operations| - 1]
      case Write(bytes) =>
        var more := bytes[..Min(|bytes|, room - |r.held|)];
        assert start + (r.accepted + more) == (start + r.accepted) + more;
        assert r.handedOut + (r.held + more) == (r.handedOut + r.held) + more;
      case Read(len) =>
        var n := Min(len, |r.held|);
        assert r.held == r.held[..n] + r.held[n..];
    }
  }

  /** One operation on a buffer is one on a queue with room for the capacity less one. */
  method Operate(ring: RingBuffer, operation: Operation, ghost q: Queue) returns (taken: seq<char>, given: seq<char>)
    requires ring.Valid() && q.held == ring.Contents()
    modifies ring, ring.buffer
    ensures ring.Valid() && ring.buffer == old(ring.buffer) && ring.capacity == old(ring.capacity)
    ensures Queue(ring.Contents(), q.accepted + taken, q.handedOut + given) == Operated(q, ring.capacity - 1, operation)
  {
    hide Held;
    taken, given := [], [];
    match operation
    case Write(bytes) =>
      var n := ring.WriteIn(bytes);
      if n > 0 {
        taken := bytes[..n];
      } else {
        assert Min(|bytes|, ring.capacity - 1 - |q.held|) == 0;
        assert q.held + bytes[..0] == q.held && bytes[..0] == [];
      }
      assert q.handedOut + [] == q.handedOut;
    case Read(len) =>
      var _, bytes := ring.ReadOut(len);
      given := bytes;
      assert len == 0 ==> q.held[..0] == [] && q.held[0..] == q.held;
      assert q.accepted + [] == q.accepted;
  }

  /**
   * Any interleaving of writes and reads on a buffer is one on a queue with room for the capacity less one: what was
   * accepted is what was handed out followed by what is still held, in order.
   */
  method Interleave(ring: RingBuffer, operations: seq<Operation>) returns (accepted: seq<char>, handedOut: seq<char>)
    requires ring.Valid()
    modifies ring, ring.buffer
    ensures ring.Valid() && ring.buffer == old(ring.buffer) && ring.capacity == old(ring.capacity)
    ensures Queue(ring.Contents(), accepted, handedOut) ==
            OperatedAll(Queue(old(ring.Contents()), [], []), ring.capacity - 1, operations)
    ensures old(ring.Contents()) + accepted == handedOut + ring.Contents()
  {
    hide Held, Operated;
    accepted, handedOut := [], [];
    ghost var start := Queue(ring.Contents(), [], []);
    var i := 0;
    assert operations[..0] == [];
    while i < |operations|
      invariant 0 <= i <= |operations| && ring.Valid() && ring.buffer == old(ring.buffer)
      invariant ring.capacity == old(ring.capacity)
      invariant Queue(ring.Contents(), accepted, handedOut) == OperatedAll(start, ring.capacity - 1, operations[..i])
    {
      assert operations[..i + 1][..i] == operations[..i];
      var taken, given := Operate(ring, operations[i], Queue(ring.Contents(), accepted, handedOut));
      accepted, handedOut := accepted + taken, handedOut + given;
      i := i + 1;
    }
    assert operations[..i] == operations;
    FirstInFirstOut(start, ring.capacity - 1, operations, start.held);
  }
}

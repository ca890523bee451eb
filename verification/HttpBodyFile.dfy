/**
 * The resumable chunked sender: a body file goes out through the ring buffer in the chunked coding, one call of
 * SendChunk after another, each suspended by the socket wherever it likes.
 */
module HttpBodyFiles {
  import opened Basics
  import opened HttpChars
  import opened RingBuffers
  import opened Dechex
  import opened HttpFraming
  import opened HttpParserTypes
  import HttpParserFeed

  const HTTP_FILE_CACHE_SIZE: nat := 8192

  datatype ChunkState =
    | ChunkInit | SizeOn | SizeDone | DataOn | DataDone | EofOn | FileDone | NullOn | NullDone

  datatype SendStatus = Done | Recalled | Failed

  /**
   * The bytes the sender has for the rest of a file: the size announced is cut off at HTTP_FILE_CACHE_SIZE, the data at
   * the length of the ring.
   */
  function Wire(file: seq<char>, ring: nat): seq<char>
    requires 0 < ring
  {
    if file == [] then LAST_CHUNK
    else
      var read := Min(|file|, ring);
      HexOf(Min(|file|, HTTP_FILE_CACHE_SIZE)) + CRLF + (file[..read] + CRLF + Wire(file[read..], ring))
  }

  function StatusOf(stop: Stop): SendStatus {
    match stop
    case Emptied => Done
    case Suspended => Recalled
    case Broken => Failed
  }

  /** What a socket without errors has come to: it has moved on through its schedule, and nothing has failed. */
  ghost predicate Advances(schedule: seq<SendResult>, sent: nat, sock: Socket, status: SendStatus)
    reads sock
  {
    sent <= |sock.sent| && Progress(schedule, sock.schedule, |sock.sent| - sent, status.Recalled?) &&
    (NoError(schedule) ==> !status.Failed?)
  }

  class HttpBodyFile {
    var file: File
    var ringbuf: RingBuffer
    var readOffset: nat
    var chunkSize: nat
    var chunkState: ChunkState

    ghost predicate Valid()
      reads this, file, ringbuf, ringbuf.buffer
    {
      file.Valid() && ringbuf.Valid()
    }

    /** The rest of the file. */
    function Left(): seq<char>
      requires file.Valid()
      reads this, file
    {
      file.content[file.pos..]
    }

    function RingLength(): (n: nat)
      requires ringbuf.Valid()
      reads this, ringbuf
      ensures 0 < n
    {
      ringbuf.capacity - 1
    }

    /** The coding from the data of the current chunk on. */
    function FromData(): seq<char>
      requires file.Valid() && ringbuf.Valid()
      reads this, file, ringbuf
    {
      var left := Left();
      var read := Min(|left|, RingLength());
      left[..read] + CRLF + Wire(left[read..], RingLength())
    }

    /** The bytes still to come, in each state. */
    function Rest(): seq<char>
      requires file.Valid() && ringbuf.Valid()
      reads this, file, ringbuf, ringbuf.buffer
    {
      match chunkState
      case ChunkInit => Wire(Left(), RingLength())
      case SizeOn => ringbuf.Contents() + FromData()
      case SizeDone => FromData()
      case DataOn => ringbuf.Contents() + (CRLF + Wire(Left(), RingLength()))
      case DataDone => CRLF + Wire(Left(), RingLength())
      case EofOn => ringbuf.Contents() + Wire(Left(), RingLength())
      case FileDone => LAST_CHUNK
      case NullOn => ringbuf.Contents()
      case NullDone => []
    }

    /** Where a state finds the file. */
    ghost predicate Ready0()
      reads this, file, ringbuf, ringbuf.buffer
    {
      && Valid()
      && readOffset == file.pos
      && ringbuf.readPtr <= ringbuf.writePtr < ringbuf.capacity
      && (chunkState.ChunkInit? || chunkState.SizeOn? || chunkState.SizeDone? ==> file.pos < |file.content|)
      && (file.pos < |file.content| ==> !file.readDone)
      && (chunkState.NullOn? || chunkState.FileDone? || chunkState.NullDone? ==> file.pos == |file.content|)
      && (chunkState.ChunkInit? ==> chunkSize == HTTP_FILE_CACHE_SIZE)
    }

    /** Where a state finds the file and the ring. */
    ghost predicate Ready()
      reads this, file, ringbuf, ringbuf.buffer
    {
      && Ready0()
      && (IsOn() ==> ringbuf.Contents() != [])
      && (chunkState.SizeDone? || chunkState.DataDone? || chunkState.NullDone? ==>
            ringbuf.readPtr == ringbuf.writePtr == 0)
    }

    /** setFile on a new file: everything as reset leaves it. */
    constructor (content: seq<char>, bufsize: nat)
      ensures Valid() && fresh(file) && fresh(ringbuf) && fresh(ringbuf.buffer)
      ensures file.content == content && chunkState.ChunkInit? && Rest() == Wire(content, RingLength())
      ensures content != [] ==> Ready()
      ensures RingLength() == if bufsize > RINGBUFFER_MAX_LENGTH then RINGBUFFER_MAX_LENGTH
                              else if bufsize < RINGBUFFER_MIN_LENGTH then RINGBUFFER_MIN_LENGTH else bufsize
    {
      file := new File(content);
      ringbuf := new RingBuffer(bufsize);
      readOffset, chunkSize, chunkState := 0, HTTP_FILE_CACHE_SIZE, ChunkInit;
    }

    /** reset: the file is given up, the ring cleared, the machine back at its start. */
    method Reset()
      requires Valid()
      modifies this`file, this`readOffset, this`chunkSize, this`chunkState, ringbuf`readPtr, ringbuf`writePtr
      ensures Valid() && fresh(file) && file.content == [] && ringbuf == old(ringbuf) && ringbuf.Contents() == []
      ensures readOffset == 0 && chunkSize == HTTP_FILE_CACHE_SIZE && chunkState.ChunkInit?
    {
      ringbuf.Clear();
      file := new File([]);
      readOffset, chunkSize, chunkState := 0, HTTP_FILE_CACHE_SIZE, ChunkInit;
    }

    /** Puts a short text into the empty ring. */
    method Prepare(text: seq<char>)
      requires ringbuf.Valid() && ringbuf.readPtr == ringbuf.writePtr == 0 && 0 < |text| <= 64
      modifies ringbuf`writePtr, ringbuf.buffer
      ensures ringbuf.Valid() && ringbuf.Contents() == text && ringbuf.writePtr < ringbuf.capacity &&
              ringbuf.readPtr == 0
    {
      hide Held;
      var n := ringbuf.WriteIn(text);
      assert text[..n] == text;
    }

    /** Case ChunkInit: the size of the next chunk. */
    method SizeStage()
      requires Ready() && chunkState.ChunkInit?
      modifies this`chunkSize, this`chunkState, ringbuf`readPtr, ringbuf`writePtr, ringbuf.buffer
      ensures Ready() && chunkState.SizeOn? && Rest() == old(Rest())
    {
      hide Held, HexOf;
      var left := |file.content| - readOffset;
      if left < chunkSize {
        chunkSize := left;
      }
      ringbuf.Clear();
      var digits := Dec2Hex(chunkSize);
      Prepare(digits + "\r\n");
      chunkState := SizeOn;
    }

    /** Case SizeDone: the data of the chunk, as much as the ring takes. */
    method DataStage()
      requires Ready() && chunkState.SizeDone?
      modifies this`readOffset, this`chunkState, file, ringbuf`writePtr, ringbuf.buffer
      ensures Ready() && chunkState.DataOn? && Rest() == old(Rest())
      ensures file.pos > old(file.pos)
    {
      hide Held;
      ghost var left, pos := Left(), file.pos;
      var ret := ringbuf.WriteInFromFile(file);
      readOffset := readOffset + ret;
      chunkState := DataOn;
      ghost var read := Min(|left|, RingLength());
      assert file.content[pos..file.pos] == left[..read];
      assert Left() == left[read..];
      assert [] + left[..read] == left[..read];
      assert left[..read] + CRLF + Wire(left[read..],
                                        RingLength()) == left[..read] + (CRLF + Wire(left[read..], RingLength()));
    }

    /** Case DataDone: the end of the chunk. */
    method EofStage()
      requires Ready() && chunkState.DataDone?
      modifies this`chunkState, ringbuf`writePtr, ringbuf.buffer
      ensures Ready() && chunkState.EofOn? && Rest() == old(Rest())
    {
      Prepare("\r\n");
      chunkState := EofOn;
    }

    /** Case FileDone: the last chunk. */
    method NullStage()
      requires Ready() && chunkState.FileDone?
      modifies this`chunkState, ringbuf`readPtr, ringbuf`writePtr, ringbuf.buffer
      ensures Ready() && chunkState.NullOn? && Rest() == LAST_CHUNK
    {
      ringbuf.Clear();
      Prepare("0\r\n\r\n");
      chunkState := NullOn;
    }

    /** The coding behind what the ring holds, while the ring is being sent. */
    function Behind(): seq<char>
      requires file.Valid() && ringbuf.Valid()
      reads this, file, ringbuf
    {
      match chunkState
      case SizeOn => FromData()
      case DataOn => CRLF + Wire(Left(), RingLength())
      case EofOn => Wire(Left(), RingLength())
      case _ => []
    }

    predicate IsOn()
      reads this
    {
      chunkState.SizeOn? || chunkState.DataOn? || chunkState.EofOn? || chunkState.NullOn?
    }

    /** The state after the ring has been sent. */
    method Next()
      requires Ready0() && IsOn() && ringbuf.Contents() == [] && ringbuf.readPtr == ringbuf.writePtr == 0
      modifies this`chunkState, this`chunkSize
      ensures Ready() && Rest() == old(Behind())
      ensures chunkState == match old(chunkState)
                            case SizeOn => SizeDone
                            case DataOn => DataDone
                            case EofOn => if file.pos < |file.content| then ChunkInit else FileDone
                            case _ => NullDone
    {
      if chunkState.SizeOn? {
        chunkState := SizeDone;
      } else if chunkState.DataOn? {
        chunkState := DataDone;
      } else if chunkState.EofOn? {
        chunkSize := HTTP_FILE_CACHE_SIZE;
        chunkState := if |file.content| - readOffset > 0 then ChunkInit else FileDone;
      } else {
        chunkState := NullDone;
      }
    }

    /** Sends what the ring holds: all of it, and on to the next state; or part of it; or an error. */
    method SendStage(sock: Socket, ghost goal: seq<char>) returns (status: SendStatus)
      requires Ready() && IsOn() && sock.sent + Rest() == goal
      modifies this`chunkState, this`chunkSize, ringbuf`readPtr, ringbuf`writePtr, sock
      ensures Valid()
      ensures !status.Failed? ==> Ready() && sock.sent + Rest() == goal
      ensures status.Failed? ==> sock.sent < goal
      ensures status.Recalled? ==> chunkState == old(chunkState) && Rest() != []
      ensures var d := Drained(old(sock.schedule), |old(ringbuf.Contents())|);
              |sock.sent| == |old(sock.sent)| + d.taken && sock.schedule == d.schedule && status == StatusOf(d.stop)
      ensures Advances(old(sock.schedule), |old(sock.sent)|, sock, status)
      ensures status.Done? ==> chunkState == match old(chunkState)
                               case SizeOn => SizeDone
                               case DataOn => DataDone
                               case EofOn => if file.pos < |file.content| then ChunkInit else FileDone
                               case _ => NullDone
    {
      hide Wire, Held, Drained, Progress;
      DrainedProgress(sock.schedule, |ringbuf.Contents()|);
      ghost var held, behind, sent0 := ringbuf.Contents(), Behind(), sock.sent;
      assert Rest() == held + behind;
      var ret := ringbuf.Send2Socket(sock);
      Resend(sent0, held, sock.sent, ringbuf.Contents(), behind, goal);
      if ret < 0 {
        status := Failed;
      } else if ringbuf.Size() > 0 {
        status := Recalled;
      } else {
        Next();
        status := Done;
      }
    }

    /** How far a pass through the cases is from the end, at an unchanged position in the file. */
    function Rank(): nat
      reads this
    {
      match chunkState
      case NullDone => 0
      case ChunkInit | SizeOn | SizeDone => 1
      case DataOn | DataDone | EofOn | FileDone | NullOn => 2
    }

    /** The first two labels of a chunk: its size, sent. */
    method SizeCases(sock: Socket, ghost goal: seq<char>) returns (status: SendStatus)
      requires Ready() && sock.sent + Rest() == goal && (chunkState.ChunkInit? || chunkState.SizeOn?)
      modifies this`chunkState, this`chunkSize, ringbuf`readPtr, ringbuf`writePtr, ringbuf.buffer, sock
      ensures Valid()
      ensures !status.Failed? ==> Ready() && sock.sent + Rest() == goal
      ensures status.Failed? ==> sock.sent < goal
      ensures Advances(old(sock.schedule), |old(sock.sent)|, sock, status)
      ensures status.Recalled? ==> Rest() != [] && !chunkState.NullDone?
      ensures status.Done? ==> chunkState.SizeDone?
    {
      hide Wire, Held, Rest, Ready0, Behind;
      if chunkState.ChunkInit? {
        SizeStage();
      }
      status := SendStage(sock, goal);
    }

    /** The next two: its data, sent. */
    method DataCases(sock: Socket, ghost goal: seq<char>) returns (status: SendStatus)
      requires Ready() && sock.sent + Rest() == goal && (chunkState.SizeDone? || chunkState.DataOn?)
      modifies this`chunkState, this`chunkSize, this`readOffset, file, sock
      modifies ringbuf`readPtr, ringbuf`writePtr, ringbuf.buffer
      ensures Valid()
      ensures !status.Failed? ==> Ready() && sock.sent + Rest() == goal
      ensures status.Failed? ==> sock.sent < goal
      ensures Advances(old(sock.schedule), |old(sock.sent)|, sock, status)
      ensures status.Recalled? ==> Rest() != [] && !chunkState.NullDone?
      ensures status.Done? ==> chunkState.DataDone? && (file.pos == old(file.pos) ==> old(Rank()) == 2)
      ensures file.pos >= old(file.pos)
    {
      hide Wire, Held, Rest, Ready0, Behind;
      if chunkState.SizeDone? {
        DataStage();
      }
      status := SendStage(sock, goal);
    }

    /**
     * The cases of one chunk, entered at the state's own label; None when the switch goes on or is left to be tried
     * again.
     */
    method ChunkCases(sock: Socket, ghost goal: seq<char>) returns (stopped: Option<SendStatus>)
      requires Ready() && sock.sent + Rest() == goal
      requires !chunkState.FileDone? && !chunkState.NullOn? && !chunkState.NullDone?
      modifies this, file, ringbuf, ringbuf.buffer, sock
      ensures Valid() && file == old(file) && ringbuf == old(ringbuf) && ringbuf.buffer == old(ringbuf.buffer)
      ensures RingLength() == old(RingLength())
      ensures stopped.None? ==> Ready() && sock.sent + Rest() == goal && (chunkState.ChunkInit? || chunkState.FileDone?)
      ensures stopped.None? ==> old(file.pos) < file.pos || (old(file.pos) == file.pos && old(Rank()) == 2)
      ensures stopped == Some(Recalled) ==>
                Ready() && sock.sent + Rest() == goal && Rest() != [] && !chunkState.NullDone?
      ensures stopped == Some(Failed) ==> sock.sent < goal
      ensures stopped != Some(Done)
      ensures Advances(old(sock.schedule), |old(sock.sent)|, sock, if stopped.None? then Done else stopped.value)
    {
      hide Wire, Held, Rest, Ready0, Behind;
      stopped := None;
      var status;
      if chunkState.ChunkInit? || chunkState.SizeOn? {
        status := SizeCases(sock, goal);
        if !status.Done? {
          return Some(status);
        }
      }
      if chunkState.SizeDone? || chunkState.DataOn? {
        status := DataCases(sock, goal);
        if !status.Done? {
          return Some(status);
        }
      }
      if chunkState.DataDone? {
        EofStage();
      }
      status := SendStage(sock, goal);
      if !status.Done? {
        return Some(status);
      }
    }

    /** The cases that end the coding. */
    method NullCases(sock: Socket, ghost goal: seq<char>) returns (status: SendStatus)
      requires Ready() && sock.sent + Rest() == goal && (chunkState.FileDone? || chunkState.NullOn?)
      modifies this, ringbuf, ringbuf.buffer, sock
      ensures Valid() && ringbuf == old(ringbuf) && ringbuf.buffer == old(ringbuf.buffer) &&
              RingLength() == old(RingLength())
      ensures !status.Failed? ==> file == old(file) && Ready() && sock.sent + Rest() == goal
      ensures Advances(old(sock.schedule), |old(sock.sent)|, sock, status)
      ensures old(chunkState).FileDone? ==>
                var d := Drained(old(sock.schedule), |LAST_CHUNK|);
                |sock.sent| == |old(sock.sent)| + d.taken && sock.schedule == d.schedule && status == StatusOf(d.stop)
      ensures status.Done? ==> chunkState.NullDone?
      ensures status.Recalled? ==> Rest() != [] && !chunkState.NullDone?
      ensures status.Failed? ==>
                sock.sent < goal && file.content == [] && chunkState.ChunkInit? && ringbuf.Contents() == []
    {
      hide Wire, Held, Ready0, Behind;
      if chunkState.FileDone? {
        NullStage();
      }
      status := SendStage(sock, goal);
      if status.Failed? {
        Reset();
      }
    }

    /** An empty file is at its end. */
    method StartEmpty()
      requires Valid() && ringbuf.readPtr <= ringbuf.writePtr < ringbuf.capacity
      requires file.content == [] && file.pos == 0 == readOffset
      modifies `chunkState
      ensures chunkState.FileDone? && Ready() && Rest() == LAST_CHUNK && RingLength() == old(RingLength())
    {
      chunkState := FileDone;
    }

    /** One time through the switch. */
    method Pass(sock: Socket, ghost goal: seq<char>) returns (stopped: Option<SendStatus>)
      requires Ready() && sock.sent + Rest() == goal && !chunkState.NullDone?
      modifies this, file, ringbuf, ringbuf.buffer, sock
      ensures Valid() && stopped != Some(Done)
      ensures stopped.None? ==>
                Ready() && sock.sent + Rest() == goal &&
                (chunkState.NullDone? || old(file.pos) < file.pos ||
                 (old(file.pos) == file.pos && Rank() < old(Rank())))
      ensures stopped.None? || stopped.value.Recalled? ==>
                file == old(file) && ringbuf == old(ringbuf) && ringbuf.buffer == old(ringbuf.buffer) &&
                RingLength() == old(RingLength())
      ensures stopped == Some(Recalled) ==>
                Ready() && sock.sent + Rest() == goal && Rest() != [] && !chunkState.NullDone?
      ensures stopped == Some(Failed) ==>
                sock.sent < goal && file.content == [] && chunkState.ChunkInit? && ringbuf.Contents() == []
      ensures Advances(old(sock.schedule), |old(sock.sent)|, sock, if stopped.None? then Done else stopped.value)
      ensures old(chunkState).FileDone? ==>
                var d := Drained(old(sock.schedule), |LAST_CHUNK|);
                |sock.sent| == |old(sock.sent)| + d.taken && sock.schedule == d.schedule &&
                (if stopped.None? then Done else stopped.value) == StatusOf(d.stop) &&
                (stopped.None? ==> chunkState.NullDone?)
    {
      hide Wire, Held, Rest, Ready0, Behind;
      if !chunkState.FileDone? && !chunkState.NullOn? {
        stopped := ChunkCases(sock, goal);
        if stopped.Some? {
          if stopped.value.Failed? {
            Reset();
          }
          return;
        }
        if chunkState.ChunkInit? {
          return;
        }
      }
      var status := NullCases(sock, goal);
      stopped := if status.Done? then None else Some(status);
    }

    /**
     * sendChunk, one call: the cases fall through from the state's own label to the end of the switch, which is tried
     * again after a chunk that was not the last. Everything sent is a prefix of the coding of the file, and the call is
     * done exactly when that is out.
     */
    method SendChunk(sock: Socket) returns (status: SendStatus)
      requires if file.content == [] then Valid() && ringbuf.readPtr <= ringbuf.writePtr < ringbuf.capacity &&
               file.pos == 0 == readOffset
               else Ready()
      requires !chunkState.NullDone?
      modifies this, file, ringbuf, ringbuf.buffer, sock
      ensures Valid()
      ensures var goal := old(sock.sent) + if old(file.content) == [] then LAST_CHUNK else old(Rest());
              && (status.Done? <==> sock.sent == goal)
              && sock.sent <= goal
              && (status.Recalled? ==>
                    file == old(file) && ringbuf == old(ringbuf) && ringbuf.buffer == old(ringbuf.buffer) &&
                    RingLength() == old(RingLength()) &&
                    Ready() && !chunkState.NullDone? && sock.sent + Rest() == goal)
      ensures !status.Recalled? ==> file.content == [] && chunkState.ChunkInit? && ringbuf.Contents() == []
      ensures Advances(old(sock.schedule), |old(sock.sent)|, sock, status)
      ensures old(file.content) == [] ==>
                var d := Drained(old(sock.schedule), |LAST_CHUNK|);
                |sock.sent| == |old(sock.sent)| + d.taken && sock.schedule == d.schedule && status == StatusOf(d.stop)
    {
      hide Wire, Held, Behind, Rest, Drained;
      if file.content == [] {
        StartEmpty();
      }
      ghost var goal := sock.sent + Rest();
      while !chunkState.NullDone?
        invariant Ready() && sock.sent + Rest() == goal
        invariant file == old(file) && ringbuf == old(ringbuf) && ringbuf.buffer == old(ringbuf.buffer)
        invariant RingLength() == old(RingLength())
        invariant Advances(old(sock.schedule), |old(sock.sent)|, sock, Done)
        invariant old(file.content) == [] ==>
                    if chunkState.FileDone? then sock.schedule == old(sock.schedule) && sock.sent == old(sock.sent)
                    else chunkState.NullDone? &&
                         var d := Drained(old(sock.schedule), |LAST_CHUNK|);
                         |sock.sent| == |old(sock.sent)| + d.taken && sock.schedule == d.schedule &&
                           Done == StatusOf(d.stop)
        decreases |file.content| - file.pos, Rank()
      {
        FileBound();
        var stopped := Pass(sock, goal);
        if stopped.Some? {
          return stopped.value;
        }
      }
      FileBound();
      Reset();
      status := Done;
    }

    lemma FileBound()
      requires Ready()
      ensures file.pos <= |file.content| && (chunkState.NullDone? ==> Rest() == [])
    {
    }
  }

  /** Part of what is held has been sent. */
  lemma Resend(sent0: seq<char>, held0: seq<char>, sent: seq<char>, held: seq<char>, behind: seq<char>, goal: seq<char>)
    requires goal == sent0 + (held0 + behind) && sent + held == sent0 + held0
    ensures goal == sent + (held + behind)
    ensures held != [] ==> sent < goal
    ensures held == [] ==> goal == sent + behind
  {
    assert goal == (sent0 + held0) + behind;
  }

  // ---------------------------------------------------------------- whole transfers

  /** A schedule on which so many calls get n bytes out. */
  predicate Suffices(schedule: seq<SendResult>, n: nat, calls: nat) {
    NoError(schedule) && n <= Tooks(schedule) && Recalls(schedule) < calls
  }

  /**
   * Any number of calls of SendChunk on a non-empty file, whatever the socket does: what has been sent is always a
   * prefix of the coding of the file, and the transfer is done exactly when all of it has been sent. It is done when
   * the socket reports no error, takes something as often as the coding has bytes, and there is a call for every recall
   * and one more.
   */
  method Transfer(body: HttpBodyFile, sock: Socket, calls: nat) returns (status: SendStatus)
    requires body.Ready() && body.file.content != [] && body.chunkState.ChunkInit? && body.file.pos == 0 &&
             sock.sent == []
    modifies body, body.file, body.ringbuf, body.ringbuf.buffer, sock
    ensures var wire := Wire(old(body.file.content), old(body.RingLength()));
            sock.sent <= wire && (status.Done? <==> sock.sent == wire)
    ensures Suffices(old(sock.schedule), |Wire(old(body.file.content), old(body.RingLength()))|, calls) ==> status.Done?
  {
    hide Wire, Held;
    ghost var goal := Wire(body.file.content, body.RingLength());
    assert body.Left() == body.file.content;
    WireSome(body.file.content, body.RingLength());
    status := Recalled;
    var i := 0;
    while i < calls && status.Recalled?
      invariant status.Recalled? ==>
                  body.file == old(body.file) && body.ringbuf == old(body.ringbuf) &&
                    body.ringbuf.buffer == old(body.ringbuf.buffer) &&
                  body.Ready() && !body.chunkState.NullDone? && sock.sent + body.Rest() == goal && sock.sent != goal
      invariant sock.sent <= goal && (status.Done? <==> sock.sent == goal)
      invariant NoError(old(sock.schedule)) ==>
                  && NoError(sock.schedule) && !status.Failed?
                  && Tooks(old(sock.schedule)) <= Tooks(sock.schedule) + |sock.sent|
                  && (status.Recalled? ==>
                        sock.schedule == [] || Recalls(sock.schedule) + i <= Recalls(old(sock.schedule)))
      invariant i <= calls
      decreases calls - i
    {
      status := body.SendChunk(sock);
      i := i + 1;
    }
  }

  /** A large file begins with a chunk announced with 8192 bytes. */
  lemma WireBegins(file: seq<char>, ring: nat)
    requires 0 < ring && 8192 <= |file|
    ensures "2000\r\n" <= Wire(file, ring)
  {
    assert HexOf(2) == HexOf(0) + "2" == "2";
    assert HexOf(32) == HexOf(2) + "0" == "20";
    assert HexOf(512) == HexOf(32) + "0" == "200";
    assert HexOf(8192) == HexOf(512) + "0" == "2000";
  }

  lemma WireSome(file: seq<char>, ring: nat)
    requires 0 < ring
    ensures Wire(file, ring) != []
  {
  }

  /** What a number of calls send for an empty file, and how the last of them comes out. */
  function EmptyRun(schedule: seq<SendResult>, calls: nat): (r: (seq<char>, SendStatus))
    decreases calls
  {
    if calls == 0 then ([], Recalled)
    else
      var d := Drained(schedule, |LAST_CHUNK|);
      if d.stop.Suspended? then
        var r := EmptyRun(d.schedule, calls - 1);
        (LAST_CHUNK[..d.taken] + r.0, r.1)
      else (LAST_CHUNK[..d.taken], StatusOf(d.stop))
  }

  function Following(sent: seq<char>, r: (seq<char>, SendStatus)): (seq<char>, SendStatus) {
    (sent + r.0, r.1)
  }

  lemma FollowingBoth(a: seq<char>, b: seq<char>, r: (seq<char>, SendStatus))
    ensures Following(a, Following(b, r)) == Following(a + b, r)
  {
    assert a + (b + r.0) == a + b + r.0;
  }

  /** The first call that sends anything sends the whole terminator. */
  predicate SendsWhole(schedule: seq<SendResult>) {
    schedule != [] &&
      if schedule[0].Recall? then SendsWhole(schedule[1..]) else Drained(schedule, |LAST_CHUNK|).stop.Emptied?
  }

  /** An empty file, by any number of calls: every call starts the terminator again. */
  method EmptyTransfer(body: HttpBodyFile, sock: Socket, calls: nat) returns (status: SendStatus)
    requires body.Valid() && body.file.content == [] && body.chunkState.ChunkInit? &&
             body.file.pos == 0 == body.readOffset
    requires body.ringbuf.readPtr <= body.ringbuf.writePtr < body.ringbuf.capacity && sock.sent == []
    modifies body, body.file, body.ringbuf, body.ringbuf.buffer, sock
    ensures (sock.sent, status) == EmptyRun(old(sock.schedule), calls)
  {
    hide Drained;
    status := Recalled;
    var i := 0;
    assert [] + EmptyRun(sock.schedule, calls).0 == EmptyRun(sock.schedule, calls).0;
    while i < calls && status.Recalled?
      invariant i <= calls
      invariant status.Recalled? ==>
                  && body.file == old(body.file) && body.ringbuf == old(body.ringbuf)
                  && body.ringbuf.buffer == old(body.ringbuf.buffer)
                  && body.Valid() && !body.chunkState.NullDone? && body.file.pos == 0 == body.readOffset
                  && body.ringbuf.readPtr <= body.ringbuf.writePtr < body.ringbuf.capacity
      invariant EmptyRun(old(sock.schedule), calls) ==
                Following(sock.sent, if status.Recalled? then EmptyRun(sock.schedule, calls - i) else ([], status))
      decreases calls - i
    {
      ghost var sent0, d := sock.sent, Drained(sock.schedule, |LAST_CHUNK|);
      status := body.SendChunk(sock);
      assert sock.sent == sent0 + LAST_CHUNK[..d.taken];
      i := i + 1;
      ghost var rest := if status.Recalled? then EmptyRun(sock.schedule, calls - i) else ([], status);
      FollowingBoth(sent0, LAST_CHUNK[..d.taken], rest);
      assert LAST_CHUNK[..d.taken] + [] == LAST_CHUNK[..d.taken];
    }
    assert sock.sent + [] == sock.sent;
  }

  /**
   * The transfer of an empty file, once it is done, is right if and only if the first call that sends anything sends
   * the whole terminator; otherwise the receiver gets a piece of it more.
   */
  lemma {:induction false} EmptyIsRightIff(schedule: seq<SendResult>, calls: nat)
    requires EmptyRun(schedule, calls).1.Done?
    ensures |LAST_CHUNK| <= |EmptyRun(schedule, calls).0|
    ensures EmptyRun(schedule, calls).0 == LAST_CHUNK <==> SendsWhole(schedule)
    decreases calls
  {
    var d := Drained(schedule, |LAST_CHUNK|);
    if d.stop.Suspended? {
      EmptyIsRightIff(d.schedule, calls - 1);
      var r := EmptyRun(d.schedule, calls - 1);
      if d.taken == 0 {
        assert LAST_CHUNK[..0] + r.0 == r.0;
        UsedUp(schedule);
      } else {
        assert |LAST_CHUNK[..d.taken] + r.0| > |LAST_CHUNK|;
      }
    } else {
      assert LAST_CHUNK[..5] == LAST_CHUNK;
    }
  }

  /** A call that sends nothing found a recall, or nothing at all. */
  lemma UsedUp(schedule: seq<SendResult>)
    requires var d := Drained(schedule, |LAST_CHUNK|); d.stop.Suspended? && d.taken == 0
    ensures schedule == [] || (schedule[0].Recall? && Drained(schedule, |LAST_CHUNK|).schedule == schedule[1..])
    ensures schedule == [] ==> Drained(schedule, |LAST_CHUNK|).schedule == []
  {
  }

  /** Two calls, the first of which gets a byte out: a second zero ends up before the terminator. */
  lemma EmptyIsWrong()
    ensures EmptyRun([Took(0), Recall, Took(4)], 2) == ("0" + LAST_CHUNK, Done)
  {
    var s := [Took(0), Recall, Took(4)];
    assert s[1..] == [Recall, Took(4)] && s[1..][1..] == [Took(4)] && [Took(4)][1..] == [];
    assert Drained(s[1..], 4) == Drain(0, [Took(4)], Suspended);
    assert Drained(s, 5) == Drain(1, [Took(4)], Suspended);
    assert Drained([Took(4)], 5) == Drain(5, [], Emptied);
    assert EmptyRun([Took(4)], 1) == (LAST_CHUNK[..5], Done);
    assert LAST_CHUNK[..5] == LAST_CHUNK && LAST_CHUNK[..1] == "0";
  }

  // ---------------------------------------------------------------- the coding on the wire

  /** A file cut into pieces of at most n bytes. */
  function Pieces(file: seq<char>, n: nat): seq<seq<char>>
    requires 0 < n
  {
    if file == [] then [] else [file[..Min(|file|, n)]] + Pieces(file[Min(|file|, n)..], n)
  }

  lemma {:induction false} PiecesConcat(file: seq<char>, n: nat)
    requires 0 < n
    ensures Concat(Pieces(file, n)) == file
    ensures forall i :: 0 <= i < |Pieces(file, n)| ==> 0 < |Pieces(file, n)[i]| <= n
  {
    if file != [] {
      var k := Min(|file|, n);
      PiecesConcat(file[k..], n);
      assert Pieces(file, n)[1..] == Pieces(file[k..], n);
      assert file[..k] + file[k..] == file;
    }
  }

  /** The condition under which the size announced for a chunk is the size read for it. */
  predicate SizesAgree(size: nat, ring: nat) {
    ring == HTTP_FILE_CACHE_SIZE || size <= Min(ring, HTTP_FILE_CACHE_SIZE)
  }

  /** The bytes are a chunked coding of the file, for some way of cutting it into chunks. */
  ghost predicate IsCoding(wire: seq<char>, file: seq<char>) {
    exists chunks :: Concat(chunks) == file && wire == Chunked(chunks)
  }

  /** One round of the sender, with its parts bracketed as a chunk. */
  lemma WireRound(file: seq<char>, ring: nat)
    requires 0 < ring && file != []
    ensures var read := Min(|file|, ring);
            Wire(file, ring) ==
            HexOf(Min(|file|, HTTP_FILE_CACHE_SIZE)) + CRLF + file[..read] + CRLF + Wire(file[read..], ring)
  {
    hide HexOf;
  }

  /** When the sizes agree, what goes out is the chunked coding of the file. */
  lemma {:induction false} WireIsChunked(file: seq<char>, ring: nat)
    requires 0 < ring && SizesAgree(|file|, ring)
    ensures Wire(file, ring) == Chunked(Pieces(file, HTTP_FILE_CACHE_SIZE))
  {
    hide Wire, HexOf;
    if file == [] {
      WireEnd(ring);
    } else {
      var k := Min(|file|, HTTP_FILE_CACHE_SIZE);
      assert k == Min(|file|, ring);
      WireIsChunked(file[k..], ring);
      WireRound(file, ring);
      var pieces := Pieces(file, HTTP_FILE_CACHE_SIZE);
      assert pieces[0] == file[..k] && pieces[1..] == Pieces(file[k..], HTTP_FILE_CACHE_SIZE);
    }
  }

  lemma WireEnd(ring: nat)
    requires 0 < ring
    ensures Wire([], ring) == LAST_CHUNK
  {
  }

  /** Where the first line of s ends. */
  function LineEnd(s: seq<char>): nat {
    if s == [] || s[0] == '\r' then 0 else 1 + LineEnd(s[1..])
  }

  lemma {:induction false} LineEndAt(line: seq<char>, x: seq<char>)
    requires '\r' !in line
    ensures LineEnd(line + CRLF + x) == |line|
  {
    if line != [] {
      assert (line + CRLF + x)[1..] == line[1..] + CRLF + x;
      LineEndAt(line[1..], x);
    }
  }

  /** The size line determines the size and what follows it. */
  lemma SizeLineUnique(m: nat, n: nat, x: seq<char>, y: seq<char>)
    ensures HexOf(m) + CRLF + x == HexOf(n) + CRLF + y ==> m == n && x == y
  {
    hide LineEnd;
    var a, b := HexOf(m) + CRLF + x, HexOf(n) + CRLF + y;
    LineEndAt(HexOf(m), x);
    LineEndAt(HexOf(n), y);
    assert HexOf(m) == a[..|HexOf(m)|] && HexOf(n) == b[..|HexOf(n)|];
    HexOfValue(m);
    HexOfValue(n);
    assert x == a[|HexOf(m)| + 2..] && y == b[|HexOf(n)| + 2..];
  }

  function Filled(n: nat): seq<char> {
    seq(n, _ => 'x')
  }

  /** When the sizes do not agree, what goes out for this file is no chunked coding of it. */
  lemma WireBroken(size: nat, ring: nat, chunks: seq<seq<char>>)
    requires 0 < ring && !SizesAgree(size, ring)
    requires Concat(chunks) == Filled(size)
    ensures Wire(Filled(size), ring) != Chunked(chunks)
  {
    hide Wire, HexOf;
    var file := Filled(size);
    var d, read, first := Min(size, HTTP_FILE_CACHE_SIZE), Min(size, ring), chunks[0];
    var x := file[..read] + CRLF + Wire(file[read..], ring);
    var y := first + CRLF + Chunked(chunks[1..]);
    WireRound(file, ring);
    assert Wire(file, ring) == HexOf(d) + CRLF + x;
    assert Chunked(chunks) == HexOf(|first|) + CRLF + y;
    SizeLineUnique(d, |first|, x, y);
    assert Concat(chunks)[..|first|] == first;
    if |first| == d {
      assert d != read;
      assert if read < d then x[read] == '\r' && y[read] == 'x' else x[d] == 'x' && y[d] == '\r';
    }
  }

  lemma WireIsRight(file: seq<char>, ring: nat)
    requires 0 < ring && SizesAgree(|file|, ring)
    ensures IsCoding(Wire(file, ring), file)
  {
    hide Wire, Chunked, Concat, Pieces;
    PiecesConcat(file, HTTP_FILE_CACHE_SIZE);
    WireIsChunked(file, ring);
  }

  lemma WireIsWrong(size: nat, ring: nat)
    requires 0 < ring && !SizesAgree(size, ring)
    ensures !IsCoding(Wire(Filled(size), ring), Filled(size))
  {
    hide Wire, Chunked, Concat, Filled;
    forall chunks | Concat(chunks) == Filled(size)
      ensures Wire(Filled(size), ring) != Chunked(chunks)
    {
      WireBroken(size, ring, chunks);
    }
  }

  /**
   * The sender's bytes are a chunked coding of the file, for every file of a size and whatever it contains, if and
   * only if the sizes agree.
   */
  lemma WireIsRightIff(size: nat, ring: nat)
    requires 0 < ring
    ensures SizesAgree(size, ring) <==> forall file: seq<char> :: |file| == size ==> IsCoding(Wire(file, ring), file)
  {
    hide Wire, IsCoding;
    if SizesAgree(size, ring) {
      forall file: seq<char> | |file| == size
        ensures IsCoding(Wire(file, ring), file)
      {
        WireIsRight(file, ring);
      }
    } else {
      assert |Filled(size)| == size;
      WireIsWrong(size, ring);
    }
  }

  /**
   * From the sender to the parser: the bytes of a file sent through a ring of the default length, fed to a parser that
   * expects a chunk, deliver exactly the file, with the message completed exactly once.
   */
  lemma SentIsReceived(cfg: Settings, c: Core, file: seq<char>)
    requires c.state.ChunkSizeStart?
    ensures var f := HttpParserFeed.Feed(cfg, c, Wire(file, HTTP_FILE_CACHE_SIZE), 0);
            BodyBytes(f.events) == file && Completions(f.events) == 1 && f.used == |Wire(file, HTTP_FILE_CACHE_SIZE)|
  {
    var pieces := Pieces(file, HTTP_FILE_CACHE_SIZE);
    PiecesConcat(file, HTTP_FILE_CACHE_SIZE);
    WireIsChunked(file, HTTP_FILE_CACHE_SIZE);
    PlainCoded(pieces);
    FeedChunked(cfg, c, Plains(pieces), LAST);
  }
}

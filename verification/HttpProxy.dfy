/**
 * The protocol driver of http/HttpProxyConnection.cpp: one connection between a client and a server socket, through
 * CONNECT, the two TLS handshakes and the forwarding of requests and responses. What sockets, TLS, the resolver and the
 * message parser come up with is left open.
 */
module HttpProxyConnections {
  import opened Basics

  const EVENT_CALLBACK_CONTINUE: int := 0
  const EVENT_CALLBACK_BREAK: int := 1

  datatype State =
    | ProxyInit
    | ClientRecvRequest | ClientRecvRequestDone
    | ClientSend200Ok | ClientSend200OkDone
    | ServerHandshake | ServerHandshakeDone
    | ClientHandshake | ClientHandshakeDone
    | TcpTunnel
    | ServerSendRequest | ServerSendRequestDone
    | ServerRecvResponse | ServerRecvResponseDone
    | ClientSendResponse | ClientSendResponseDone
    | ClientClose | ClientCloseDone | ServerClose | ServerCloseDone

  /**
   * A socket with its descriptor, whether TLS is active on it, the events it is armed for, and those whose handler
   * has become closeHandle.
   */
  datatype Sock = Sock(fd: int, ssl: bool, readOn: bool, writeOn: bool, readCloses: bool, writeCloses: bool) {
    predicate Exists() { fd >= 0 }
    function Arm(read: bool, write: bool): Sock { if Exists() then this.(readOn := read, writeOn := write) else this }
    function Armed(): bool { Exists() && (readOn || writeOn) }

    /** Armed for what TLS wants before it closes. */
    function Closing(read: bool): Sock {
      if !Exists() then this
      else Arm(read, !read).(readCloses := readCloses || read, writeCloses := writeCloses || !read)
    }
  }

  function Opened(fd: int, read: bool): Sock {
    Sock(fd, false, read, false, false, false)
  }

  const CLOSED: Sock := Opened(-1, false)

  /**
   * A message being parsed: its header complete, all of it complete, its method CONNECT, its header callback set, and
   * whether the parser has failed on it, which it never recovers from.
   */
  datatype Message = Message(header: bool, complete: bool, connect: bool, handle: bool, failed: bool)

  const CLEARED: Message := Message(false, false, false, false, false)

  datatype Resolving = Uninit | Failed | OnProcess

  datatype ConnectState = ConnectUninit | ConnectError | Connecting | Connected

  datatype Verdict = BadMessage | NeedMoreData | Complete

  datatype Outcome = Fine | Recall | Error

  // ---------------------------------------------------------------- the order of things

  datatype Event =
    | Entered(state: State, serverExists: bool)
    | Parsed(connect: bool)  // a request has been parsed completely, its method CONNECT or not
    | Told200                // the 200 is out completely
    | ServerShook            // the TLS handshake with the server has succeeded
    | Resigned               // the server's certificate has been signed anew
    | Installed              // and set up for the client
    | ClientShakes           // a step of the TLS handshake with the client
    | Forwarded              // what was read of the request is out to the server completely
    | Replied                // a response has been parsed completely
    | Cleared                // both messages have been cleared
    | Recycled

  /** How far the way to the client's TLS handshake has been gone. */
  function Way(trace: seq<Event>): (way: nat)
    ensures way <= 4
  {
    if trace == [] then 0 else Further(Way(trace[..|trace| - 1]), trace[|trace| - 1])
  }

  function Further(way: nat, e: Event): (more: nat)
    requires way <= 4
    ensures more <= 4
  {
    match e
    case Told200 => 1
    case ServerShook => 2
    case Resigned => 3
    case Installed => 4
    case ClientShakes => 4
    case Recycled => 0
    case _ => way
  }

  /** What has become of the request that was parsed last, until it is cleared. */
  datatype Round = Idle | Got(connect: bool) | Accepted200 | Asked | Answered

  function RoundOf(trace: seq<Event>): Round {
    if trace == [] then Idle else Turned(RoundOf(trace[..|trace| - 1]), trace[|trace| - 1])
  }

  function Turned(round: Round, e: Event): Round {
    match e
    case Parsed(connect) => Got(connect)
    case Told200 => Accepted200
    case Forwarded => Asked
    case Replied => Answered
    case Cleared => Idle
    case Recycled => Idle
    case _ => round
  }

  /** The states that forward a request, or announce a tunnel to the server. */
  predicate NeedsServer(s: State) {
    s.ClientSend200Ok? || s.ServerSendRequest? || s.ServerSendRequestDone? || s.ServerRecvResponse?
  }

  predicate Reached(s: State) {
    match s
    case TcpTunnel | ClientClose | ClientCloseDone | ServerClose | ServerCloseDone => false
    case _ => true
  }

  /** What must have become of the request when a state is entered. */
  predicate InTurn(round: Round, s: State, serverExists: bool) {
    match s
    case ClientSend200Ok => round == Got(true)
    case ClientSend200OkDone => round.Accepted200?
    case ServerHandshake => round.Idle?
    case ServerSendRequest => round == Got(false)
    case ServerSendRequestDone => round.Asked?
    case ServerRecvResponse => round.Asked?
    case ServerRecvResponseDone => round.Answered?
    case ClientSendResponse => serverExists ==> round.Answered?
    case _ => true
  }

  predicate MayFollow(way: nat, round: Round, e: Event) {
    match e
    case Entered(s, serverExists) =>
      Reached(s) && (NeedsServer(s) ==> serverExists) && InTurn(round, s, serverExists)
    case Parsed(_) => round.Idle?
    case Told200 => round == Got(true)
    case Forwarded => round == Got(false)
    case Replied => round.Asked?
    case ServerShook => way == 1
    case Resigned => way == 2
    case Installed => way == 3
    case ClientShakes => way == 4
    case _ => true
  }

  predicate InOrder(trace: seq<Event>) {
    trace == [] ||
    var before := trace[..|trace| - 1];
    InOrder(before) && MayFollow(Way(before), RoundOf(before), trace[|trace| - 1])
  }

  lemma Follows(trace: seq<Event>, e: Event)
    requires InOrder(trace) && MayFollow(Way(trace), RoundOf(trace), e)
    ensures InOrder(trace + [e]) && Way(trace + [e]) == Further(Way(trace), e)
    ensures RoundOf(trace + [e]) == Turned(RoundOf(trace), e)
  {
    assert (trace + [e])[..|trace|] == trace;
  }

  /** The event that makes the step number w of the way. */
  predicate IsStep(w: nat, e: Event) {
    match w
    case 1 => e.Told200?
    case 2 => e.ServerShook?
    case 3 => e.Resigned?
    case 4 => e.Installed?
    case _ => false
  }

  /** An event that makes no step of the way. */
  predicate NoStep(e: Event) {
    !e.Recycled? && !e.Told200? && !e.ServerShook? && !e.Resigned? && !e.Installed?
  }

  predicate Quiet(trace: seq<Event>, i: nat, n: nat)
    requires i < n <= |trace|
  {
    forall k :: i < k < n ==> NoStep(trace[k])
  }

  /** What a way has behind it: the event that made its last step, reached by a way one step shorter. */
  lemma {:induction false} Back(trace: seq<Event>, n: nat) returns (i: nat)
    requires n <= |trace| && InOrder(trace[..n]) && 0 < Way(trace[..n])
    ensures i < n && Quiet(trace, i, n) && InOrder(trace[..i])
    ensures IsStep(Way(trace[..n]), trace[i]) && (1 < Way(trace[..n]) ==> Way(trace[..i]) == Way(trace[..n]) - 1)
    decreases n
  {
    var t := trace[..n];
    assert t[..n - 1] == trace[..n - 1] && t[n - 1] == trace[n - 1];
    if NoStep(t[n - 1]) {
      i := Back(trace, n - 1);
    } else {
      i := n - 1;
    }
  }

  /** Nothing between i and n parses or clears a request. */
  predicate Unturned(trace: seq<Event>, i: nat, n: nat)
    requires i < n <= |trace|
  {
    forall k :: i < k < n ==> !trace[k].Parsed? && !trace[k].Cleared? && !trace[k].Recycled?
  }

  /** A request that has been got was parsed, with that method, and not cleared since. */
  lemma {:induction false} GotBack(trace: seq<Event>, n: nat) returns (i: nat)
    requires n <= |trace| && RoundOf(trace[..n]).Got?
    ensures i < n && trace[i] == Parsed(RoundOf(trace[..n]).connect) && Unturned(trace, i, n)
    decreases n
  {
    var t := trace[..n];
    assert t[..n - 1] == trace[..n - 1] && t[n - 1] == trace[n - 1];
    if t[n - 1].Parsed? {
      i := n - 1;
    } else {
      i := GotBack(trace, n - 1);
    }
  }

  /** The method of the last request that was parsed before n, and has not been cleared. */
  ghost predicate LastParsed(trace: seq<Event>, n: nat, connect: bool)
    requires n <= |trace|
  {
    exists i :: 0 <= i < n && trace[i] == Parsed(connect) && Unturned(trace, i, n)
  }

  /**
   * A 200 is begun, and told, only for a request whose method is CONNECT, and a request is forwarded only if its method
   * is another one.
   */
  ghost predicate RightMethod(trace: seq<Event>, n: nat)
    requires n < |trace|
  {
    && (trace[n].Told200? || (trace[n].Entered? && trace[n].state.ClientSend200Ok?) ==> LastParsed(trace, n, true))
    && (trace[n].Forwarded? || (trace[n].Entered? && trace[n].state.ServerSendRequest?) ==> LastParsed(trace, n, false))
  }

  lemma MethodDecides(trace: seq<Event>, n: nat)
    requires InOrder(trace) && n < |trace|
    ensures RightMethod(trace, n)
  {
    hide InOrder, Way, RoundOf;
    Prefix(trace, n);
    if RoundOf(trace[..n]).Got? {
      var i := GotBack(trace, n);
    }
  }

  lemma {:induction false} Prefix(trace: seq<Event>, n: nat)
    requires InOrder(trace) && n < |trace|
    ensures InOrder(trace[..n]) && MayFollow(Way(trace[..n]), RoundOf(trace[..n]), trace[n])
    decreases |trace|
  {
    var t := trace[..|trace| - 1];
    if n < |trace| - 1 {
      Prefix(t, n);
      assert t[..n] == trace[..n];
    }
  }

  /** The four steps of the way, in order, and nothing in between that would start it again. */
  predicate Prepared(trace: seq<Event>, n: nat, a: nat, b: nat, c: nat, d: nat) {
    && a < b < c < d < n <= |trace|
    && trace[a].Told200? && trace[b].ServerShook? && trace[c].Resigned? && trace[d].Installed?
    && forall k :: a < k < n ==> !trace[k].Recycled? && !trace[k].Told200?
  }

  /**
   * Before every step of the client's TLS handshake, and after the connection was last recycled, the 200 was sent
   * completely, then the handshake with the server succeeded, then its certificate was signed anew and installed.
   */
  lemma HandshakeOrder(trace: seq<Event>, n: nat)
    requires InOrder(trace) && n < |trace| && trace[n].ClientShakes?
    ensures exists a, b, c, d :: Prepared(trace, n, a, b, c, d)
  {
    hide InOrder, Way, RoundOf;
    Prefix(trace, n);
    var d := Back(trace, n);
    var c := Back(trace, d);
    var b := Back(trace, c);
    var a := Back(trace, b);
    assert Prepared(trace, n, a, b, c, d);
  }

  /**
   * Which states the driver entered, and with what: never a tunnel or a CLOSE state, and forwarding only with a server.
   */
  lemma EnteredStates(trace: seq<Event>, n: nat)
    requires InOrder(trace) && n < |trace| && trace[n].Entered?
    ensures Reached(trace[n].state) && (NeedsServer(trace[n].state) ==> trace[n].serverExists)
  {
    hide InOrder, Way, RoundOf;
    Prefix(trace, n);
  }

  // ---------------------------------------------------------------- the next state

  /** isNeedTunnelSSL */
  predicate NeedTunnelSSL() {
    false
  }

  /** predictNextState */
  function Next(s: State, needMore: bool, connect: bool, client: bool, server: bool): State {
    match s
    case ProxyInit => ClientRecvRequest
    case ClientRecvRequest => if !needMore then ClientRecvRequestDone else ClientRecvRequest
    case ClientRecvRequestDone =>
      if server then (if connect then ClientSend200Ok else ServerSendRequest) else ClientSendResponse
    case ClientSend200Ok => ClientSend200OkDone
    case ClientSend200OkDone => if NeedTunnelSSL() then TcpTunnel else ServerHandshake
    case ServerHandshake => ServerHandshakeDone
    case ServerHandshakeDone => ClientHandshake
    case ClientHandshake => ClientHandshakeDone
    case ClientHandshakeDone => ClientRecvRequest
    case ServerSendRequest => ServerSendRequestDone
    case ServerSendRequestDone => ServerRecvResponse
    case ServerRecvResponse => ServerRecvResponseDone
    case ServerRecvResponseDone => ClientSendResponse
    case ClientSendResponse => ClientSendResponseDone
    case ClientSendResponseDone => ClientRecvRequest
    case ClientClose => ClientCloseDone
    case ClientCloseDone => if server then ServerClose else ProxyInit
    case ServerClose => ServerCloseDone
    case ServerCloseDone => if client then ClientSendResponse else ProxyInit
    case TcpTunnel => TcpTunnel
  }

  /** How far along the way each state has to be. */
  predicate Along(s: State, way: nat) {
    match s
    case ClientSend200OkDone => way == 1
    case ServerHandshake => way == 1
    case ServerHandshakeDone => way == 3
    case ClientHandshake => way == 4
    case _ => true
  }

  /** How the messages stand in each state: what has become of the last request, and nothing complete too early. */
  predicate InPhase(s: State, round: Round, request: Message, response: Message) {
    match s
    case ClientRecvRequestDone => round == Got(request.connect) && request.complete && !response.complete
    case ClientSend200Ok => round == Got(true)
    case ClientSend200OkDone => round.Accepted200?
    case ServerSendRequest => round == Got(false) && !response.complete
    case ServerSendRequestDone => round.Asked? && !response.complete
    case ServerRecvResponse => round.Asked? && !response.complete
    case ServerRecvResponseDone => round.Answered?
    case ClientSendResponse => true
    case ClientSendResponseDone => true
    case _ => round.Idle? && !request.complete && !response.complete
  }

  /** One for the states between a complete request and the clearing of the messages, and for a complete request. */
  function Pending(s: State, complete: bool): nat {
    match s
    case ProxyInit | ServerHandshake | ServerHandshakeDone
       | ClientHandshake | ClientHandshakeDone | ClientRecvRequest =>
      if complete then 1 else 0
    case _ => 1
  }

  /** The position of a state on the way round, as long as nothing is read and nothing cleared. */
  function Rank(s: State): nat {
    match s
    case ProxyInit => 15
    case ServerHandshake => 14
    case ServerHandshakeDone => 13
    case ClientHandshake => 12
    case ClientHandshakeDone => 11
    case ClientRecvRequest => 10
    case ClientRecvRequestDone => 9
    case ClientSend200Ok => 8
    case ClientSend200OkDone => 7
    case ServerSendRequest => 6
    case ServerSendRequestDone => 5
    case ServerRecvResponse => 4
    case ServerRecvResponseDone => 3
    case ClientSendResponse => 2
    case ClientSendResponseDone => 1
    case _ => 0
  }

  class HttpProxyConnection {
    var state: State
    var client: Sock
    var server: Sock
    var request: Message
    var response: Message
    var resolver: Resolving
    var querying: bool                 // the resolver has a query under way
    var toServer: seq<char>            // the client's input buffer, which is the server's output buffer
    var toClient: nat                  // what is left to send to the client
    var clientInput: seq<char>         // unread on the client's socket
    var serverInput: seq<char>         // unread on the server's socket
    ghost var received: seq<char>      // read from the client since it was accepted
    ghost var forwarded: seq<char>     // sent to the server since then
    ghost var trace: seq<Event>
    ghost var notices: nat             // the notifications of the proxy attached to the client's buffer
    ghost var delivered: nat           // the bytes sent to clients

    ghost predicate Base()
      reads this
    {
      && InOrder(trace) && Reached(state)
      && received == forwarded + toServer
      && (client.Exists() && server.Exists() ==> client.fd != server.fd)
      && -1 <= client.fd && -1 <= server.fd
      && !(request.failed && request.complete)
      && (querying ==> !server.Exists() && !resolver.Failed?)
    }

    ghost predicate Valid()
      reads this
    {
      Base() && Along(state, Way(trace)) && InPhase(state, RoundOf(trace), request, response)
    }

    /** In the middle of a receiving state, when the parser has given its verdict. */
    ghost predicate Judged(ofClient: bool, v: Verdict)
      reads this
    {
      && Base() && Along(state, Way(trace))
      && if ofClient then
           && state.ClientRecvRequest? && !response.complete && (v.Complete? <==> request.complete)
           && RoundOf(trace) == if v.Complete? then Got(request.connect) else Idle
         else
           && state.ServerRecvResponse? && RoundOf(trace) == (if v.Complete? then Answered else Asked)
           && (v.NeedMoreData? ==> !response.complete)
    }

    function Unread(): nat
      reads this
    {
      |clientInput| + |serverInput|
    }

    predicate Gone()
      reads this
    {
      state.ProxyInit? && !client.Exists() && !server.Exists()
    }

    /** A connection with its client just accepted. */
    constructor (fd: nat)
      ensures Valid() && client.fd == fd && state.ProxyInit? && received == []
    {
      state, client, server := ProxyInit, Opened(fd, true), CLOSED;
      request, response, resolver, querying := CLEARED, CLEARED, Uninit, false;
      toServer, toClient, clientInput, serverInput := [], 0, [], [];
      received, forwarded, trace, notices, delivered := [], [], [], 0, 0;
    }

    ghost method Log(e: Event)
      requires InOrder(trace) && MayFollow(Way(trace), RoundOf(trace), e)
      modifies `trace
      ensures trace == old(trace) + [e] && InOrder(trace)
      ensures Way(trace) == Further(Way(old(trace)), e) && RoundOf(trace) == Turned(RoundOf(old(trace)), e)
    {
      Follows(trace, e);
      trace := trace + [e];
    }

    /** What the socket, TLS, the resolver or the parser comes up with: any number up to n. */
    method Any(n: nat) returns (k: nat)
      ensures k <= n
    {
      k := *;
      if k > n {
        k := n;
      }
    }

    method Perhaps() returns (b: bool)
    {
      b := *;
    }

    // -------------------------------------------------------------- closing

    /** Every field as in a new connection. */
    method Clear()
      modifies `state, `client, `server, `request, `response, `resolver, `querying, `toServer, `toClient, `received,
               `forwarded
      ensures state.ProxyInit? && client == server == CLOSED && request == response == CLEARED && resolver.Uninit?
      ensures toServer == received == forwarded == [] && toClient == 0 && !querying
    {
      request, response := CLEARED, CLEARED;
      client, server := CLOSED, CLOSED;
      toServer, toClient, received, forwarded := [], 0, [], [];
      resolver, querying := Uninit, false;
      state := ProxyInit;
    }

    method Recycle()
      requires Base() && !client.Exists() && !server.Exists()
      modifies this
      ensures Valid() && Gone() && Unread() == old(Unread())
      ensures notices == old(notices) && delivered == old(delivered)
    {
      hide InOrder, Way, RoundOf;
      Clear();
      Log(Recycled);
    }

    method ForceCloseServer()
      requires Base()
      modifies this
      ensures Base() && !server.Exists() && Unread() == old(Unread())
      ensures old(client.Exists()) ==>
                client == old(client) && state == old(state) && trace == old(trace) && request == old(request)
      ensures old(client.Exists()) ==>
                response == old(response) && resolver == old(resolver) && toClient == old(toClient)
      ensures notices == old(notices) && delivered == old(delivered)
      ensures !old(client.Exists()) ==> Valid() && Gone()
    {
      hide InOrder, Way, RoundOf;
      server := CLOSED;
      if !client.Exists() {
        Recycle();
      }
    }

    /** forceCloseProxy, which forceCloseClient is too. */
    method ForceCloseProxy()
      requires Base()
      modifies this
      ensures Valid() && Gone() && Unread() == old(Unread()) && delivered == old(delivered)
    {
      hide InOrder, Way, RoundOf;
      client := CLOSED;
      ForceCloseServer();
    }

    function Of(ofClient: bool): Sock
      reads this
    {
      if ofClient then client else server
    }

    method Arm(ofClient: bool, read: bool, write: bool)
      modifies `client, `server
      ensures client == if ofClient then old(client).Arm(read, write) else old(client)
      ensures server == if ofClient then old(server) else old(server).Arm(read, write)
    {
      if ofClient {
        client := client.Arm(read, write);
      } else {
        server := server.Arm(read, write);
      }
    }

    predicate SomethingArmed()
      reads this
    {
      client.Armed() || server.Armed()
    }

    /** Everything as it was, except for what the client's socket is armed for until it closes. */
    predicate AwaitsTls(was: Sock, serverWas: Sock, stateWas: State, requestWas: Message, resolverWas: Resolving)
      reads this
    {
      && (client == was.Closing(true) || client == was.Closing(false))
      && server == serverWas && state == stateWas && request == requestWas && resolver == resolverWas
    }

    /** closeHandle; a TLS socket may have to wait before it closes, armed for what TLS wants. */
    method CloseHandle(ofClient: bool) returns (ret: int)
      requires Valid()
      modifies this
      ensures Valid() && Unread() == old(Unread())
      ensures ret == EVENT_CALLBACK_CONTINUE ==> SomethingArmed()
      ensures ret == EVENT_CALLBACK_BREAK ==> Gone()
      ensures ret == EVENT_CALLBACK_CONTINUE || ret == EVENT_CALLBACK_BREAK
      ensures state == old(state) || state.ClientSendResponse? || Gone()
      ensures delivered == old(delivered) && (client.Exists() ==> toClient == old(toClient))
      ensures !old(client.Exists()) ==> !client.Exists()
      ensures !old(Of(ofClient)).ssl ==> !Of(ofClient).Exists()
      ensures !ofClient && client.Exists() && !server.Exists() ==>
                if toClient > 0 then state.ClientSendResponse? && client.writeOn
                else state == old(state) && client.readOn
      ensures ofClient && client.Exists() ==>
                AwaitsTls(old(client), old(server), old(state), old(request), old(resolver))
      decreases ofClient
    {
      hide InOrder, Way, RoundOf, Turned, Further;
      var recall := Perhaps();
      var read := Perhaps();
      if Of(ofClient).Exists() && Of(ofClient).ssl && recall {
        if ofClient {
          client := client.Closing(read);
        } else {
          server := server.Closing(read);
        }
        return EVENT_CALLBACK_CONTINUE;
      }
      if ofClient {
        client := CLOSED;
      } else {
        server := CLOSED;
      }
      if !client.Exists() && !server.Exists() {
        Recycle();
        return EVENT_CALLBACK_BREAK;
      }
      var fd := Of(ofClient).fd;
      if fd == client.fd {
        ret := CloseHandle(false);
        return;
      } else if fd == server.fd {
        if toClient > 0 {
          state := ClientSendResponse;
          Log(Entered(state, false));
          client := client.Arm(client.readOn, true);
        } else {
          client := client.Arm(true, client.writeOn);
        }
      }
      ret := EVENT_CALLBACK_CONTINUE;
    }

    // -------------------------------------------------------------- the steps of the driver

    /** What has become of the request when a state is left. */
    ghost predicate ReadyToLeave()
      reads this
    {
      match state
      case ClientRecvRequestDone => RoundOf(trace) == Got(request.connect)
      case ClientSend200Ok => RoundOf(trace).Accepted200?
      case ClientSend200OkDone => RoundOf(trace).Idle?
      case ServerSendRequest => RoundOf(trace).Asked?
      case ServerSendRequestDone => RoundOf(trace).Asked?
      case ServerRecvResponse => RoundOf(trace).Answered?
      case ServerRecvResponseDone => RoundOf(trace).Answered?
      case _ => true
    }

    /** predictNextState, carried out. */
    method PredictNextState()
      requires Base()
      requires NeedsServer(state) && !state.ServerRecvResponse? && !state.ClientSend200Ok? ==> server.Exists()
      requires ReadyToLeave()
      modifies `state, `client, `trace
      ensures Base() &&
              state == Next(old(state), !request.complete, request.connect, old(client.Exists()), server.Exists())
      ensures client == if old(state).ProxyInit? then old(client).Arm(true, old(client).writeOn) else old(client)
      ensures trace == old(trace) + [Entered(state, server.Exists())]
      ensures Way(trace) == Way(old(trace)) && RoundOf(trace) == RoundOf(old(trace))
    {
      hide InOrder, Way, RoundOf;
      if state.ProxyInit? {
        client := client.Arm(true, client.writeOn);
      }
      state := Next(state, !request.complete, request.connect, client.Exists(), server.Exists());
      Log(Entered(state, server.Exists()));
    }

    /** Connects to the server: on success there is a new socket for it. */
    method Connect(reachable: bool) returns (ok: bool)
      requires Base() && !server.Exists() && !querying
      modifies `server
      ensures Base() && ok == server.Exists() == reachable
      ensures !ok ==> server == old(server)
      ensures ok ==> !server.readCloses && !server.writeCloses
    {
      hide InOrder, Way, RoundOf;
      ok := reachable;
      if ok {
        var fd := Any(65536);
        server := Opened(if fd == client.fd then fd + 1 else fd, false);
      }
    }

    /** requestHeaderCompleteHandle: another host, or no server, means a new server; the resolver may answer at once. */
    method RequestHeaderCompleteHandle() returns (ghost asked: bool)
      requires Base() && client.Exists() && Along(state, Way(trace))
      modifies this
      ensures Base() && client == old(client) && state == old(state) && trace == old(trace) && Unread() == old(Unread())
      ensures request == old(request) && toClient == old(toClient)
      ensures notices == old(notices) && delivered == old(delivered)
      ensures !old(server.Exists()) ==> asked
      ensures !asked ==> server == old(server) && resolver == old(resolver) && response == old(response)
      ensures asked ==> response == CLEARED && (server.Exists() <==> resolver.Uninit?)
    {
      hide InOrder, Way, RoundOf;
      var other := Perhaps();
      asked := other || !server.Exists();
      if other || !server.Exists() {
        ForceCloseServer();
        response := CLEARED;
        querying := false;
        var answer := Any(2);
        if answer == 0 {
          resolver := Failed;
        } else if answer == 1 {
          resolver, querying := OnProcess, true;
        } else {
          var reachable := Perhaps();
          var ok := Connect(reachable);
          resolver := if ok then Uninit else Failed;
        }
      }
    }

    /** recvNIO: reads what has arrived, which goes to the peer's output buffer. Returns the bytes read, or -1. */
    method Receive(ofClient: bool) returns (n: int, want: nat)
      requires Base()
      modifies `toServer, `toClient, `clientInput, `serverInput, `received
      ensures Base() && Unread() <= old(Unread()) && want <= 3
      ensures n >= 0 ==> Of(ofClient).Exists() && n == old(Unread()) - Unread()
      ensures if ofClient then toServer + clientInput == old(toServer) + old(clientInput)
              else toClient + |serverInput| == old(toClient) + |old(serverInput)|
      ensures if ofClient then serverInput == old(serverInput) else clientInput == old(clientInput)
      ensures want != 0 ==> Of(ofClient).ssl
      ensures if ofClient then toClient == old(toClient) else toServer == old(toServer)
    {
      hide InOrder, Way, RoundOf;
      n, want := -1, 0;
      if Of(ofClient).Exists() {
        var k;
        if ofClient {
          k := Any(|clientInput|);
          received := received + clientInput[..k];
          toServer := toServer + clientInput[..k];
          clientInput := clientInput[k..];
        } else {
          k := Any(|serverInput|);
          toClient := toClient + k;
          serverInput := serverInput[k..];
        }
        var failed := Perhaps();
        n := if failed then -1 else k;
        if Of(ofClient).ssl {
          want := Any(3);
        }
      }
    }

    /** sendNIO: sends part of the output buffer. */
    method Send(ofClient: bool) returns (n: int, want: nat)
      requires Base()
      modifies `toServer, `toClient, `forwarded, `delivered
      ensures Base() && want <= 3 && (n >= 0 ==> Of(ofClient).Exists())
      ensures delivered + toClient == old(delivered) + old(toClient)
    {
      hide InOrder, Way, RoundOf;
      n, want := -1, 0;
      if Of(ofClient).Exists() {
        var k;
        if ofClient {
          k := Any(toClient);
          toClient, delivered := toClient - k, delivered + k;
        } else {
          k := Any(|toServer|);
          forwarded := forwarded + toServer[..k];
          toServer := toServer[k..];
        }
        var failed := Perhaps();
        n := if failed then -1 else k;
        if Of(ofClient).ssl {
          want := Any(3);
        }
      }
    }

    /** attachHttpMessage: the client's output buffer is cleared, and takes a notification of the proxy. */
    method Attach()
      modifies `toClient, `notices
      ensures toClient > 0 && notices == old(notices) + 1
    {
      var more := Any(65536);
      toClient := 1 + more;
      notices := notices + 1;
    }

    /** The header callback, for any number of message headers. */
    method PassHeaders(headers: nat)
      requires Base() && client.Exists() && Along(state, Way(trace)) && !response.complete
      modifies this
      ensures Base() && client == old(client) && state == old(state) && trace == old(trace) && Unread() == old(Unread())
      ensures request == old(request) && toClient == old(toClient) && !response.complete
      ensures notices == old(notices) && delivered == old(delivered)
    {
      hide Base, Along;
      var i := 0;
      while i < headers && request.handle
        invariant Base() && client == old(client) && state == old(state) && trace == old(trace)
        invariant Unread() == old(Unread())
        invariant request == old(request) && toClient == old(toClient) && !response.complete
        invariant notices == old(notices) && delivered == old(delivered)
        decreases headers - i
      {
        var _ := RequestHeaderCompleteHandle();
        i := i + 1;
      }
    }

    /**
     * The parser on n bytes of a request; it may come past any number of message headers. Once it has failed on a
     * request it reads nothing more of it and reports the failure again.
     */
    method ParseRequest(n: nat, verdict: Verdict) returns (v: Verdict)
      requires Valid() && client.Exists() && state.ClientRecvRequest?
      modifies this
      ensures Judged(true, v) && client == old(client) && state == old(state) && Unread() == old(Unread())
      ensures v.Complete? ==> request.header
      ensures (request.failed <==> v.BadMessage?) && (old(request).failed ==> v.BadMessage?)
      ensures toClient == old(toClient) && notices == old(notices) && delivered == old(delivered)
    {
      hide InOrder, Way, RoundOf, Reached;
      if request.failed {
        return BadMessage;
      }
      v := verdict;
      var headers := Any(n);
      PassHeaders(headers);
      var header := Perhaps();
      var connect := Perhaps();
      request := Message(header || v.Complete?, v.Complete?, connect, request.handle, v.BadMessage?);
      if v.Complete? {
        Log(Parsed(connect));
      }
    }

    /** The parser on the n bytes just read. */
    method Parse(ofClient: bool, n: nat) returns (v: Verdict)
      requires Valid() && Of(ofClient).Exists()
      requires if ofClient then state.ClientRecvRequest? else state.ServerRecvResponse?
      modifies this
      ensures Judged(ofClient, v) && client == old(client) && state == old(state) && Unread() == old(Unread())
      ensures ofClient && v.Complete? ==> request.header
      ensures ofClient ==> (request.failed <==> v.BadMessage?) && (old(request).failed ==> v.BadMessage?)
      ensures toClient == old(toClient) && notices == old(notices) && delivered == old(delivered)
      ensures !ofClient ==> request == old(request) && server == old(server) && (v.NeedMoreData? ==> !response.complete)
    {
      hide InOrder, Way, RoundOf, Reached;
      var verdict := Any(2);
      v := if verdict == 0 then BadMessage else if verdict == 1 then NeedMoreData else Complete;
      if ofClient {
        v := ParseRequest(n, v);
      } else {
        var header := Perhaps();
        var complete := Perhaps();
        response := Message(header, v.Complete? || (v.BadMessage? && complete), false, response.handle, v.BadMessage?);
        if v.Complete? {
          Log(Replied);
        }
      }
    }

    /** getServerConnectState */
    function ServerConnectState(): ConnectState
      reads this
    {
      if server.Exists() then Connected
      else if request.header && resolver.Failed? then ConnectError
      else if request.header && resolver.OnProcess? then Connecting
      else ConnectUninit
    }

    /** The resolver has failed to come up with a server for the request whose header is there. */
    ghost predicate Unreachable()
      reads this
    {
      !server.Exists() && request.header && resolver.Failed?
    }

    /** A bad request: the 400 is attached, the parser has failed and the driver is back at reading. */
    ghost predicate Refused()
      reads this
    {
      && state.ClientRecvRequest? && request.failed && client.Exists()
      && (server.Exists() ==> !server.readCloses && !server.writeCloses)
    }

    /** A complete request without a server, and nothing that would call the driver for the client. */
    ghost predicate Waits()
      reads this
    {
      state.ClientRecvRequestDone? && !server.Exists() && client.Exists() && (client.readOn ==> client.readCloses)
    }

    ghost predicate WaitsForAnswer()
      reads this
    {
      Waits() && resolver.OnProcess?
    }

    /** The two situations whose notification is never sent. */
    ghost predicate Mute()
      reads this
    {
      Refused() || (Waits() && resolver.Failed?)
    }

    /** The states in which something has to be waited for. */
    ghost predicate WaitsHere()
      reads this
    {
      match state
      case ClientRecvRequest | ServerRecvResponse => true
      case ClientSend200Ok | ClientSendResponse | ServerSendRequest => true
      case ServerHandshake | ClientHandshake => true
      case ClientRecvRequestDone => WaitsForAnswer()
      case ProxyInit => Gone()
      case _ => false
    }

    /**
     * What every stop of the driver leaves: an armed socket, or the connection gone, or a request waiting for the
     * resolver.
     */
    ghost predicate Rests(ret: int)
      reads this
    {
      && (ret == EVENT_CALLBACK_CONTINUE || ret == EVENT_CALLBACK_BREAK)
      && WaitsHere()
      && (ret == EVENT_CALLBACK_CONTINUE ==> SomethingArmed() || Gone())
      && (ret == EVENT_CALLBACK_BREAK ==>
            Gone() || WaitsForAnswer())
    }

    /** Two events armed for what TLS wants: 1 is to read, 2 to write, anything else an error. */
    method ArmFor(ofClient: bool, want: nat) returns (ok: bool)
      modifies `client, `server
      ensures ok == (want == 1 || want == 2)
      ensures client == if ofClient then old(client).Arm(ok && want == 1, ok && want == 2) else old(client)
      ensures server == if ofClient then old(server) else old(server).Arm(ok && want == 1, ok && want == 2)
    {
      ok := want == 1 || want == 2;
      Arm(ofClient, ok && want == 1, ok && want == 2);
    }

    /** The end of a receiving state whose message is complete, or has a notification attached for it. */
    method Received(ofClient: bool, ghost v: Verdict)
      requires Judged(ofClient, v) && !(v.NeedMoreData? && !ofClient) && (v.BadMessage? ==> ofClient)
      modifies `state, `client, `server, `trace
      ensures Valid() &&
              state == Next(old(state), !request.complete, request.connect, old(client.Exists()), old(server.Exists()))
      ensures client.Exists() == old(client.Exists()) && server.Exists() == old(server.Exists())
      ensures if ofClient then !client.Armed() else !server.Armed()
    {
      hide InOrder, Way, RoundOf;
      PredictNextState();
      Arm(ofClient, false, false);
    }

    /**
     * A notification in the client's buffer, with the driver going on: towards sending it exactly if the request is
     * complete, and back to reading otherwise.
     */
    ghost predicate Noticed(stopped: Option<int>)
      reads this
    {
      && stopped.None? && toClient > 0 && !server.Exists()
      && state == if request.complete then ClientRecvRequestDone else ClientRecvRequest
    }

    /** What becomes of a message after the parser has seen the bytes read. */
    method AfterParse(ofClient: bool, v: Verdict) returns (stopped: Option<int>)
      requires Judged(ofClient, v) && Of(ofClient).Exists()
      requires ofClient ==> (request.failed <==> v.BadMessage?)
      requires (v.NeedMoreData? ==> Of(ofClient).Armed()) && (ofClient && v.Complete? ==> request.header)
      modifies this
      ensures Valid() && Unread() == old(Unread())
      ensures stopped.Some? ==> Rests(stopped.value)
      ensures stopped.None? && !ofClient ==> state.ServerRecvResponseDone?
      ensures stopped.None? ==> !state.ServerSendRequestDone?
      ensures ofClient ==>
                notices == old(notices) + (if v.BadMessage? || Unreachable() then 1 else 0)
      ensures ofClient ==> if notices > old(notices) then Noticed(stopped) else toClient == old(toClient)
      ensures ofClient && v.BadMessage? ==> Refused() && notices > old(notices)
      ensures ofClient ==> delivered == old(delivered)
      ensures ofClient && !v.BadMessage? ==>
                resolver == old(resolver) && request == old(request) && server.Exists() == old(server.Exists())
      ensures ofClient && v.Complete? ==>
                state.ClientRecvRequestDone? && (stopped.Some? <==> !server.Exists() && resolver.OnProcess?)
    {
      hide InOrder, Way, RoundOf;
      stopped := None;
      if v.BadMessage? {
        if ofClient {
          Attach();
          ForceCloseServer();
        } else {
          ForceCloseProxy();
          return Some(EVENT_CALLBACK_BREAK);
        }
      } else if v.NeedMoreData? {
        if ofClient && ServerConnectState().ConnectError? {
          Attach();
        } else {
          return Some(EVENT_CALLBACK_CONTINUE);
        }
      } else if ofClient {
        if ServerConnectState().ConnectError? {
          Attach();
        } else if ServerConnectState().Connecting? {
          Received(ofClient, v);
          return Some(EVENT_CALLBACK_BREAK);
        }
      }
      Received(ofClient, v);
    }

    /**
     * What becomes of the bytes of a request that have been parsed: a notification is attached for a bad request, and
     * for one whose server could not be reached; a complete request is kept otherwise.
     */
    ghost predicate Attached(v: Verdict, stopped: Option<int>, noticesBefore: nat, toClientBefore: nat)
      reads this
    {
      && notices == noticesBefore + (if v.BadMessage? || Unreachable() then 1 else 0)
      && (if notices > noticesBefore then Noticed(stopped) else toClient == toClientBefore)
      && (v.BadMessage? ==> Refused())
      && (v.Complete? ==> request.header && request.complete && state.ClientRecvRequestDone?)
    }

    /** The reading of the two cases below. */
    method ReadIn() returns (stopped: Option<int>, n: nat)
      requires Valid() && (state.ClientRecvRequest? || state.ServerRecvResponse?)
      modifies this
      ensures Valid() && n <= old(Unread()) - Unread() && delivered == old(delivered) && !state.ClientRecvRequestDone?
      ensures stopped.None? && old(state).ClientRecvRequest? ==>
                toServer + clientInput == old(toServer) + old(clientInput)
      ensures stopped.None? && old(state).ServerRecvResponse? ==>
                toServer == old(toServer) && toClient + |serverInput| == old(toClient) + |old(serverInput)|
      ensures stopped.Some? ==> Rests(stopped.value)
      ensures stopped.Some? && old(state).ClientRecvRequest? && client.Exists() ==>
                state == old(state) && request == old(request) && server == old(server)
      ensures stopped.None? ==>
                state == old(state) && request == old(request) && response == old(response)
      ensures stopped.None? && state.ClientRecvRequest? ==>
                client.Armed() && server == old(server) && notices == old(notices) && toClient == old(toClient)
      ensures stopped.None? && state.ServerRecvResponse? ==> server.Armed()
    {
      hide InOrder, Way, RoundOf;
      var ofClient := state.ClientRecvRequest?;
      stopped, n := None, 0;
      Arm(ofClient, true, false);
      var k, want := Receive(ofClient);
      if k < 0 {
        var ret := CloseHandle(ofClient);
        return Some(ret), 0;
      }
      n := k;
      if want != 0 {
        var ok := ArmFor(ofClient, want);
        if !ok {
          var ret := CloseHandle(ofClient);
          return Some(ret), 0;
        }
        if n == 0 && want == 2 {
          return Some(EVENT_CALLBACK_CONTINUE), 0;
        }
      }
    }

    /** The cases CLIENT_RECV_REQUEST and SERVER_RECV_RESPONSE. */
    method ReceiveStage() returns (stopped: Option<int>, ghost verdict: Option<Verdict>)
      requires Valid() && (state.ClientRecvRequest? || state.ServerRecvResponse?)
      modifies this
      ensures Valid() && Unread() <= old(Unread())
      ensures stopped.Some? ==> Rests(stopped.value)
      ensures stopped.None? ==> !state.ServerSendRequestDone?
      ensures stopped.None? || state.ClientRecvRequestDone? ==> Unread() < old(Unread())
      ensures old(state).ClientRecvRequest? && verdict.Some? ==>
                Attached(verdict.value, stopped, old(notices), old(toClient))
      ensures old(Refused()) ==> delivered == old(delivered) && (Refused() || (!client.Exists() && stopped.Some?))
      ensures old(state).ClientRecvRequest? && verdict == Some(Complete) ==>
                (stopped.Some? <==> !server.Exists() && resolver.OnProcess?)
    {
      hide InOrder, Way, RoundOf;
      verdict := None;
      var ofClient := state.ClientRecvRequest?;
      var n;
      stopped, n := ReadIn();
      if stopped.Some? {
        return;
      }
      if n == 0 {
        // a message is never complete here, so that the driver does not go on without having read anything
        assert !(if ofClient then request.complete else response.complete);
        return Some(EVENT_CALLBACK_CONTINUE), None;
      }
      var v := Parse(ofClient, n);
      stopped := AfterParse(ofClient, v);
      verdict := Some(v);
    }

    /** What the trace has of a sending state at its end. */
    ghost method LogSent()
      requires Valid() && (state.ClientSend200Ok? || state.ClientSendResponse? || state.ServerSendRequest?)
      modifies `trace
      ensures Base() && ReadyToLeave()
      ensures state.ClientSend200Ok? ==> Way(trace) == 1
      ensures state.ServerSendRequest? ==> !response.complete
    {
      hide InOrder, Way, RoundOf, Reached;
      if state.ClientSend200Ok? {
        Log(Told200);
      } else if state.ServerSendRequest? {
        Log(Forwarded);
      }
    }

    /** The end of a sending state: all the data is out. */
    method SentAll()
      requires Valid() && (state.ClientSend200Ok? || state.ClientSendResponse? || state.ServerSendRequest?)
      requires state.ServerSendRequest? ==> server.Exists()
      modifies `state, `client, `server, `trace
      ensures Valid() && state == Next(old(state), false, false, true, true)
      ensures client.Exists() == old(client.Exists()) && server.Exists() == old(server.Exists())
      ensures if old(state).ServerSendRequest? then !server.Armed() else !client.Armed()
    {
      hide InOrder, Way, RoundOf, MayFollow, Turned, Further;
      var ofClient := !state.ServerSendRequest?;
      LogSent();
      PredictNextState();
      Arm(ofClient, false, false);
    }

    /** The sending of the cases below: goes on only when nothing is left to send. */
    method SendOut() returns (stopped: Option<int>)
      requires Valid() && (state.ClientSend200Ok? || state.ClientSendResponse? || state.ServerSendRequest?)
      modifies this
      ensures Valid() && Unread() == old(Unread())
      ensures stopped.Some? ==> Rests(stopped.value) && !state.ClientRecvRequestDone?
      ensures stopped.None? ==> state == old(state) && request == old(request) && notices == old(notices)
      ensures stopped.None? ==> if state.ServerSendRequest? then server.Exists() && toServer == [] else toClient == 0
      ensures stopped.None? || client.Exists() ==> delivered + toClient == old(delivered) + old(toClient)
    {
      hide InOrder, Way, RoundOf, Reached;
      var ofClient := !state.ServerSendRequest?;
      stopped := None;
      Arm(ofClient, false, true);
      var n, want := Send(ofClient);
      if n < 0 {
        var ret := CloseHandle(ofClient);
        return Some(ret);
      }
      if if ofClient then toClient > 0 else toServer != [] {
        if want != 0 {
          var ok := ArmFor(ofClient, want);
          if !ok {
            var ret := CloseHandle(ofClient);
            return Some(ret);
          }
        }
        return Some(EVENT_CALLBACK_CONTINUE);
      }
    }

    /** The cases that send: CLIENT_SEND_200OK, CLIENT_SEND_RESPONSE and SERVER_SEND_REQUEST. */
    method SendStage() returns (stopped: Option<int>)
      requires Valid() && (state.ClientSend200Ok? || state.ClientSendResponse? || state.ServerSendRequest?)
      modifies this
      ensures Valid() && Unread() == old(Unread())
      ensures stopped.Some? ==> Rests(stopped.value) && !state.ClientRecvRequestDone?
      ensures stopped.None? ==> state == Next(old(state), false, false, true, true) && request == old(request)
      ensures stopped.None? && old(state).ServerSendRequest? ==> server.Exists() && toServer == []
      ensures stopped.None? && !old(state).ServerSendRequest? ==> toClient == 0
      ensures stopped.None? || client.Exists() ==> delivered + toClient == old(delivered) + old(toClient)
      ensures stopped.None? ==> notices == old(notices)
    {
      hide Valid, Rests, Next;
      stopped := SendOut();
      if stopped.None? {
        SentAll();
      }
    }

    /** Both messages are cleared, unless a request has just been forwarded. */
    method ClearMessages()
      requires Valid() && (state.ClientSend200OkDone? || state.ClientSendResponseDone? || state.ServerSendRequestDone?)
      modifies `request, `response, `trace
      ensures Base() && ReadyToLeave() && Along(state, Way(trace))
      ensures if state.ServerSendRequestDone? then request == old(request) && response == old(response)
              else request == response == CLEARED && RoundOf(trace).Idle?
      ensures !response.complete
    {
      hide InOrder, Way, RoundOf, Reached;
      if !state.ServerSendRequestDone? {
        request, response := CLEARED, CLEARED;
        Log(Cleared);
      }
    }

    /** TLS is set up for both sockets. */
    method PrepareTls() returns (stopped: Option<int>)
      requires Valid() && state.ServerHandshake?
      modifies this
      ensures Valid() && Unread() == old(Unread())
      ensures stopped.Some? ==> Rests(stopped.value) && !state.ClientRecvRequestDone?
      ensures stopped.None? ==> state.ServerHandshake? && (server.Exists() ==> server.ssl)
      ensures stopped.None? ==> request == old(request) && response == old(response)
      ensures stopped.None? ==> toClient == old(toClient) && notices == old(notices)
    {
      hide InOrder, Way, RoundOf, Reached;
      stopped := None;
      var ok := Perhaps();
      if !ok {
        ForceCloseProxy();
        return Some(EVENT_CALLBACK_BREAK);
      }
      server, client := server.(ssl := true), client.(ssl := true);
    }

    /** The cases after a 200, a response or a request has been sent. */
    method DoneStage() returns (stopped: Option<int>)
      requires Valid() && (state.ClientSend200OkDone? || state.ClientSendResponseDone? || state.ServerSendRequestDone?)
      requires state.ServerSendRequestDone? ==> server.Exists()
      modifies this
      ensures Valid() && Unread() == old(Unread())
      ensures stopped.Some? ==> Rests(stopped.value) && !state.ClientRecvRequestDone?
      ensures stopped.None? ==> state == Next(old(state), true, false, true, true)
      ensures stopped.None? ==>
                match old(state)
                case ClientSend200OkDone => state.ServerHandshake? && (server.Exists() ==> server.ssl)
                case ClientSendResponseDone => state.ClientRecvRequest?
                case _ => state.ServerRecvResponse?
      ensures stopped.None? && !old(state).ServerSendRequestDone? ==> request == response == CLEARED
      ensures stopped.None? ==> toClient == old(toClient) && notices == old(notices)
    {
      hide InOrder, Way, RoundOf, Base, Rests, MayFollow, Turned, Further;
      stopped := None;
      ClearMessages();
      PredictNextState();
      if state.ServerHandshake? {
        stopped := PrepareTls();
      }
    }

    /** SSL_connect or SSL_accept on a socket. */
    method HandShake(ofClient: bool) returns (outcome: Outcome)
      requires Base() && Way(trace) == if ofClient then 4 else 1
      modifies `client, `server, `trace
      ensures Base() && (outcome.Fine? || outcome.Recall? ==> Of(ofClient).Exists() && Of(ofClient).ssl)
      ensures client.Exists() == old(client.Exists()) && server.Exists() == old(server.Exists())
      ensures outcome.Recall? ==> Of(ofClient).Armed()
      ensures trace == old(trace) + if ofClient then [ClientShakes] else if outcome.Fine? then [ServerShook] else []
      ensures Way(trace) == (if ofClient then 4 else if outcome.Fine? then 2 else 1)
      ensures RoundOf(trace) == RoundOf(old(trace))
    {
      hide InOrder, Way, RoundOf, Reached;
      if ofClient {
        Log(ClientShakes);
      }
      var k := Any(2);
      if k == 0 || !Of(ofClient).Exists() || !Of(ofClient).ssl {
        return Error;
      } else if k == 1 {
        var read := Perhaps();
        Arm(ofClient, read, !read);
        return Recall;
      }
      if !ofClient {
        Log(ServerShook);
      }
      outcome := Fine;
    }

    /** resignCertificate, and the setting up of what it has signed: the first is the third step of the way. */
    method Prepare(third: bool) returns (ok: bool)
      requires Base() && Way(trace) == if third then 2 else 3
      modifies `trace
      ensures Base() && RoundOf(trace) == RoundOf(old(trace))
      ensures Way(trace) == Way(old(trace)) + if ok then 1 else 0
      ensures trace == old(trace) + if ok then [if third then Resigned else Installed] else []
    {
      hide InOrder, Way, RoundOf, Reached;
      ok := Perhaps();
      if ok {
        Log(if third then Resigned else Installed);
      }
    }

    /** The signing of the server's certificate, behind a handshake that has succeeded. */
    method ResignStage() returns (stopped: Option<int>)
      requires Base() && state.ServerHandshake? && Way(trace) == 2 && InPhase(state, RoundOf(trace), request, response)
      modifies this
      ensures Valid() && Unread() == old(Unread())
      ensures stopped.Some? ==> Rests(stopped.value) && !state.ClientRecvRequestDone?
      ensures stopped.None? ==> state.ServerHandshakeDone? && request == old(request) && !server.Armed()
    {
      hide InOrder, Way, RoundOf;
      stopped := None;
      var resigned := Prepare(true);
      if !resigned {
        ForceCloseProxy();
        return Some(EVENT_CALLBACK_CONTINUE);
      }
      PredictNextState();
      Arm(false, false, false);
    }

    /** The case SERVER_HANDSHAKE. */
    method ServerHandshakeStage() returns (stopped: Option<int>)
      requires Valid() && state.ServerHandshake?
      modifies this
      ensures Valid() && Unread() == old(Unread())
      ensures stopped.Some? ==> Rests(stopped.value) && !state.ClientRecvRequestDone?
      ensures stopped.None? ==> state.ServerHandshakeDone? && request == old(request) && !server.Armed()
    {
      hide InOrder, Way, RoundOf;
      Arm(false, false, true);
      var outcome := HandShake(false);
      if outcome.Recall? {
        return Some(EVENT_CALLBACK_CONTINUE);
      } else if outcome.Error? {
        ForceCloseProxy();
        return Some(EVENT_CALLBACK_CONTINUE);
      }
      stopped := ResignStage();
    }

    /** The case SERVER_HANDSHAKE_DONE. */
    method InstallStage() returns (stopped: Option<int>)
      requires Valid() && state.ServerHandshakeDone?
      modifies this
      ensures Valid() && Unread() == old(Unread())
      ensures stopped.Some? ==> Rests(stopped.value) && !state.ClientRecvRequestDone?
      ensures stopped.None? ==> state.ClientHandshake? && request == old(request)
    {
      hide InOrder, Way, RoundOf;
      stopped := None;
      PredictNextState();
      var installed := Prepare(false);
      if !installed {
        ForceCloseProxy();
        return Some(EVENT_CALLBACK_BREAK);
      }
    }

    /** The end of the client's handshake. */
    method EndHandshake()
      requires Base() && state.ClientHandshake? && InPhase(state, RoundOf(trace), request, response)
      modifies `state, `client, `server, `trace
      ensures Valid() && state.ClientHandshakeDone? && !client.Armed()
    {
      hide InOrder, Way, RoundOf, MayFollow, Turned, Further;
      PredictNextState();
      Arm(true, false, false);
    }

    /** The case CLIENT_HANDSHAKE. */
    method ClientHandshakeStage() returns (stopped: Option<int>)
      requires Valid() && state.ClientHandshake?
      modifies this
      ensures Valid() && Unread() == old(Unread())
      ensures stopped.Some? ==> Rests(stopped.value) && !state.ClientRecvRequestDone?
      ensures stopped.None? ==> state.ClientHandshakeDone? && request == old(request) && !client.Armed()
    {
      hide InOrder, Way, RoundOf, MayFollow, Turned, Further;
      stopped := None;
      Arm(true, true, false);
      var outcome := HandShake(true);
      if outcome.Error? {
        ForceCloseProxy();
        return Some(EVENT_CALLBACK_BREAK);
      } else if outcome.Recall? {
        return Some(EVENT_CALLBACK_CONTINUE);
      }
      EndHandshake();
    }

    /** The cases that only go on to the next state, with what they prepare. */
    method TurnStage()
      requires Valid()
      requires state.ProxyInit? || state.ClientRecvRequestDone? || state.ServerRecvResponseDone? ||
               state.ClientHandshakeDone?
      modifies this
      ensures Valid() && Unread() == old(Unread()) && request.complete == old(request.complete)
      ensures state == Next(old(state), true, request.connect, true, server.Exists()) &&
              server.Exists() == old(server.Exists())
      ensures old(state).ClientRecvRequestDone? ==>
                if !server.Exists() then state.ClientSendResponse?
                else if request.connect then state.ClientSend200Ok? && toClient > 0
                else state.ServerSendRequest?
      ensures old(state).ServerRecvResponseDone? ==> state.ClientSendResponse?
      ensures old(state).ProxyInit? || old(state).ClientHandshakeDone? ==> state.ClientRecvRequest?
      ensures request == if old(state).ProxyInit? then old(request).(handle := true) else old(request)
      ensures !state.ClientSend200Ok? ==> toClient == old(toClient) && notices == old(notices)
      ensures delivered == old(delivered) && client.Exists() == old(client.Exists())
    {
      hide InOrder, Way, RoundOf, MayFollow, Turned, Further;
      if state.ProxyInit? {
        request := request.(handle := true);
      }
      PredictNextState();
      if state.ClientSend200Ok? {
        Attach();
      }
    }

    /**
     * Three passes of the loop. A complete request without a server, whose resolver has neither failed nor been
     * asked, is dropped: the driver goes on to the next request without having sent, or handed to the client's
     * buffer, anything.
     */
    method DropRequest() returns (stopped: Option<int>)
      requires Valid() && state.ClientRecvRequestDone? && !server.Exists() && resolver.Uninit? && toClient == 0
      modifies this
      ensures Valid()
      ensures stopped.None? ==>
                state.ClientRecvRequest? && request == response == CLEARED && toClient == 0 && notices == old(notices)
      ensures stopped.Some? ==> Rests(stopped.value)
    {
      hide InOrder, Way, RoundOf;
      TurnStage();
      stopped := SendStage();
      if stopped.None? {
        stopped := DoneStage();
      }
    }

    /**
     * Two passes of the loop. A notification attached to a complete request goes out: either all of it, or the socket
     * has kept the rest back.
     */
    method SendNotice() returns (stopped: Option<int>)
      requires Valid() && state.ClientRecvRequestDone? && !server.Exists() && toClient > 0
      modifies this
      ensures Valid()
      ensures stopped.None? ==>
                state.ClientSendResponseDone? && toClient == 0 && delivered == old(delivered) + old(toClient)
      ensures stopped.Some? ==> Rests(stopped.value)
      ensures stopped.Some? && client.Exists() ==> delivered + toClient == old(delivered) + old(toClient)
    {
      hide InOrder, Way, RoundOf;
      TurnStage();
      stopped := SendStage();
    }

    /** One pass of the driver's loop. */
    method Step() returns (stopped: Option<int>)
      requires Valid() && (state.ServerSendRequestDone? ==> server.Exists())
      modifies this
      ensures Valid() && Unread() <= old(Unread())
      ensures stopped.Some? ==> Rests(stopped.value)
      ensures stopped.Some? && state.ClientRecvRequestDone? ==> Unread() < old(Unread())
      ensures stopped.None? ==> state.ServerSendRequestDone? ==> server.Exists()
      ensures old(Refused()) ==> delivered == old(delivered) && (Refused() || (!client.Exists() && stopped.Some?))
      ensures stopped.None? ==>
                Unread() < old(Unread()) ||
                Pending(state, request.complete) < Pending(old(state), old(request.complete)) ||
                (Pending(state, request.complete) == Pending(old(state), old(request.complete)) &&
                 Rank(state) < Rank(old(state)))
    {
      hide InOrder, Way, RoundOf;
      stopped := None;
      if state.ClientRecvRequest? || state.ServerRecvResponse? {
        var r, _ := ReceiveStage();
        stopped := r;
      } else if state.ClientSend200Ok? || state.ClientSendResponse? || state.ServerSendRequest? {
        stopped := SendStage();
      } else if state.ClientSend200OkDone? || state.ClientSendResponseDone? || state.ServerSendRequestDone? {
        stopped := DoneStage();
      } else if state.ServerHandshake? {
        stopped := ServerHandshakeStage();
      } else if state.ServerHandshakeDone? {
        stopped := InstallStage();
      } else if state.ClientHandshake? {
        stopped := ClientHandshakeStage();
      } else {
        TurnStage();
      }
    }

    /**
     * RWEventHandle: goes on until it has to wait. It always comes to a stop, however much is unread: every pass reads,
     * or clears a complete request, or moves on along the way round.
     */
    method RWEventHandle() returns (ret: int)
      requires Valid() && (state.ServerSendRequestDone? ==> server.Exists())
      modifies this
      ensures Valid() && Rests(ret) && Unread() <= old(Unread())
      ensures state.ClientRecvRequestDone? ==> Unread() < old(Unread())
      ensures old(Refused()) ==> delivered == old(delivered) && (Refused() || !client.Exists())
    {
      hide Valid, Rests, Refused;
      while true
        invariant Valid() && Unread() <= old(Unread())
        invariant state.ServerSendRequestDone? ==> server.Exists()
        invariant old(Refused()) ==> delivered == old(delivered) && Refused()
        decreases Unread(), Pending(state, request.complete), Rank(state)
      {
        var stopped := Step();
        if stopped.Some? {
          return stopped.value;
        }
      }
    }

    // -------------------------------------------------------------- the events

    /** errorHandle, rdhupHandle and timeoutHandle. */
    method ErrorHandle(ofClient: bool)
      requires Valid()
      modifies this
      ensures Valid() && (state == old(state) || state.ProxyInit?)
      ensures if ofClient || !old(client.Exists()) then Gone() else client == old(client) && !server.Exists()
      ensures delivered == old(delivered) && (old(Mute()) ==> Mute() || !client.Exists())
      ensures old(WaitsForAnswer()) ==> WaitsForAnswer() || !client.Exists()
    {
      hide InOrder, Way, RoundOf;
      if Of(ofClient).fd == client.fd {
        ForceCloseProxy();
      } else {
        ForceCloseServer();
      }
    }

    /** The 503 for a request whose server could not be reached. */
    method NotifyFailure()
      requires Valid() && state.ClientRecvRequestDone?
      modifies `toClient, `notices, `client
      ensures Valid() && notices == old(notices) + 1 && toClient > 0
      ensures client == old(client).Arm(old(client).readOn, true)
    {
      hide InOrder, Way, RoundOf, Reached, Along, InPhase;
      Attach();
      client := client.Arm(client.readOn, true);
    }

    /** serverConnectHandle, called when the resolver has an answer. */
    method ServerConnectHandle(found: bool, reachable: bool)
      requires Valid() && querying && !state.ServerSendRequestDone?
      modifies this
      ensures Valid() && Unread() <= old(Unread()) && !state.ServerSendRequestDone?
      ensures resolver == if found && reachable then Uninit else Failed
      ensures found && reachable && old(state).ClientRecvRequestDone? && state.ClientRecvRequestDone? ==>
                Unread() < old(Unread())
      ensures resolver.Failed? && old(state).ClientRecvRequestDone? ==>
                notices == old(notices) + 1 && toClient > 0 && client == old(client).Arm(old(client).readOn, true)
      ensures resolver.Failed? ==> delivered == old(delivered) && (old(Waits()) ==> Mute())
      ensures old(Mute()) ==> delivered == old(delivered) && Mute()
      ensures resolver.Failed? ==> state == old(state) && !server.Exists() && !querying
    {
      hide InOrder, Way, RoundOf, Reached, Along, InPhase;
      querying := false;
      var ok := false;
      if found {
        ok := Connect(reachable);
      }
      if state.ClientRecvRequestDone? {
        if ok {
          var _ := RWEventHandle();
        } else {
          NotifyFailure();
        }
      }
      resolver := if ok then Uninit else Failed;
    }

    /** A recycled connection is given a new client. */
    method Accept(fd: nat)
      requires Valid() && Gone()
      modifies this
      ensures Valid() && client.fd == fd && state.ProxyInit?
    {
      hide InOrder, Way, RoundOf;
      client := Opened(fd, true);
      clientInput, serverInput := [], [];
    }

    /** More bytes arrive on the two sockets. */
    method Arrive(more: seq<char>, moreFromServer: seq<char>)
      requires Valid()
      modifies `clientInput, `serverInput
      ensures Valid() && Unread() == old(Unread()) + |more| + |moreFromServer|
    {
      clientInput, serverInput := clientInput + more, serverInput + moreFromServer;
    }
  }

  datatype Happening =
    | Ready(more: seq<char>, moreFromServer: seq<char>)
    | Trouble(ofClient: bool)
    | Closing(ofClient: bool)
    | Answer(found: bool, reachable: bool)
    | Accepted(fd: nat)

  /** Which events have a handler: a client is registered without one for writing. */
  predicate Wakes(c: HttpProxyConnection, h: Happening)
    reads c
  {
    match h
    case Ready(_, _) => (c.client.Exists() && c.client.readOn && !c.client.readCloses) || c.server.Armed()
    case Trouble(ofClient) => c.Of(ofClient).Exists()
    case Closing(ofClient) =>
      var s := c.Of(ofClient);
      s.Exists() && ((s.readOn && s.readCloses) || (s.writeOn && s.writeCloses))
    case Answer(_, _) => c.querying
    case Accepted(_) => c.Gone()
  }

  /** One event. */
  method Happen(c: HttpProxyConnection, h: Happening)
    requires c.Valid() && !c.state.ServerSendRequestDone?
    modifies c
    ensures c.Valid() && !c.state.ServerSendRequestDone?
    ensures old(c.Mute()) && old(Wakes(c, h)) ==> c.delivered == old(c.delivered) && (c.Mute() || !c.client.Exists())
    ensures old(c.WaitsForAnswer()) && old(Wakes(c, h)) && h != Answer(true, true) ==>
              c.delivered == old(c.delivered) && (c.Mute() || c.WaitsForAnswer() || !c.client.Exists())
  {
    hide InOrder, Way, RoundOf;
    if h.Ready? {
      c.Arrive(h.more, h.moreFromServer);
      var _ := c.RWEventHandle();
    } else if h.Trouble? {
      c.ErrorHandle(h.ofClient);
    } else if h.Closing? {
      var _ := c.CloseHandle(h.ofClient);
    } else if h.Answer? {
      if c.querying {
        c.ServerConnectHandle(h.found, h.reachable);
      }
    } else if c.Gone() {
      c.Accept(h.fd);
    }
  }

  /**
   * A bad request, and a complete one that has to wait for the resolver and is told that there is no such host, are
   * never answered: whatever events follow, nothing more is sent to the client until its socket is closed.
   */
  method Unanswered(c: HttpProxyConnection, happenings: seq<Happening>) returns (n: nat)
    requires c.Valid()
    requires c.Mute() || (c.WaitsForAnswer() && Answer(true, true) !in happenings)
    modifies c
    ensures n <= |happenings| && c.delivered == old(c.delivered)
    ensures c.client.Exists() ==> n == |happenings| && (c.Mute() || c.WaitsForAnswer())
  {
    n := 0;
    while n < |happenings| && c.client.Exists()
      invariant n <= |happenings| && c.Valid() && !c.state.ServerSendRequestDone?
      invariant c.delivered == old(c.delivered)
      invariant c.client.Exists() ==> c.Mute() || (c.WaitsForAnswer() && Answer(true, true) !in happenings)
    {
      if Wakes(c, happenings[n]) {
        Happen(c, happenings[n]);
      }
      n := n + 1;
    }
  }

  /**
   * Any run of a connection, through any events in any order: the handshakes are always in order, the server is there
   * whenever something is forwarded to it, a tunnel is announced for a CONNECT and only other requests are forwarded,
   * and everything read from the client is sent to the server in order, or still held for it.
   */
  method Drive(c: HttpProxyConnection, happenings: seq<Happening>)
    requires c.Valid() && !c.state.ServerSendRequestDone?
    modifies c
    ensures InOrder(c.trace) && c.received == c.forwarded + c.toServer
    ensures forall n :: 0 <= n < |c.trace| && c.trace[n].ClientShakes? ==>
              exists p, q, r, s :: Prepared(c.trace, n, p, q, r, s)
    ensures forall n :: 0 <= n < |c.trace| && c.trace[n].Entered? ==>
              Reached(c.trace[n].state) && (NeedsServer(c.trace[n].state) ==> c.trace[n].serverExists)
    ensures forall n :: 0 <= n < |c.trace| ==> RightMethod(c.trace, n)
  {
    hide InOrder, Way, RoundOf;
    var i := 0;
    while i < |happenings|
      invariant c.Valid() && !c.state.ServerSendRequestDone?
    {
      Happen(c, happenings[i]);
      i := i + 1;
    }
    forall n | 0 <= n < |c.trace| && c.trace[n].ClientShakes?
      ensures exists p, q, r, s :: Prepared(c.trace, n, p, q, r, s)
    {
      HandshakeOrder(c.trace, n);
    }
    forall n | 0 <= n < |c.trace| && c.trace[n].Entered?
      ensures Reached(c.trace[n].state) && (NeedsServer(c.trace[n].state) ==> c.trace[n].serverExists)
    {
      EnteredStates(c.trace, n);
    }
    forall n | 0 <= n < |c.trace|
      ensures RightMethod(c.trace, n)
    {
      MethodDecides(c.trace, n);
    }
  }
}

/**
 * The chat servers' client managers and connection acceptors:
 * asyncchat/ChatServer.java and loomchat/ChatServer.java (untyped, a list
 * captured by the behaviour's closure), typed/asyncchat/ChatServer.java (a
 * `ClientManager` object with a list field) and typed/loomchat/ChatServer.java
 * (a list threaded through `Become`). All of them register the addresses of
 * connected clients in order and broadcast every line read to all of them.
 */
module ChatServer {
  import opened Algebra

  datatype Protocol = ClientConnected(addr: Address) | LineRead(payload: string)

  /** What an untyped manager can receive: a protocol message or any other object. */
  datatype Incoming = Known(msg: Protocol) | Unrecognised

  /** `client.tell(new WriteLine(payload))`. */
  datatype Send = WriteLine(to: Address, payload: string)

  /** One `WriteLine(payload)` per client, in list order. */
  function Broadcast(clients: seq<Address>, payload: string): (out: seq<Send>)
    ensures |out| == |clients|
    ensures forall i :: 0 <= i < |clients| ==> out[i] == WriteLine(clients[i], payload)
  {
    if clients == [] then [] else [WriteLine(clients[0], payload)] + Broadcast(clients[1..], payload)
  }

  /** The clients registered by a history of messages: every `ClientConnected`, in order. */
  function Registered(history: seq<Protocol>): seq<Address>
    decreases |history|
  {
    if history == [] then []
    else
      var m := history[|history| - 1];
      Registered(history[..|history| - 1]) + (if m.ClientConnected? then [m.addr] else [])
  }

  /** Every tell a history causes: each line goes to the clients registered before it. */
  function Transcript(history: seq<Protocol>): seq<Send>
    decreases |history|
  {
    if history == [] then []
    else
      var h, m := history[..|history| - 1], history[|history| - 1];
      Transcript(h) + (if m.LineRead? then Broadcast(Registered(h), m.payload) else [])
  }

  lemma {:induction false} HistorySnoc(history: seq<Protocol>, m: Protocol)
    ensures Registered(history + [m]) == Registered(history) + (if m.ClientConnected? then [m.addr] else [])
    ensures Transcript(history + [m]) ==
      Transcript(history) + (if m.LineRead? then Broadcast(Registered(history), m.payload) else [])
  {
    assert (history + [m])[..|history|] == history;
  }

  /** `clients.forEach(client -> client.tell(new WriteLine(payload)))`. */
  method BroadcastEach(clients: seq<Address>, payload: string) returns (out: seq<Send>)
    ensures out == Broadcast(clients, payload)
  {
    out := [];
    var i := 0;
    while i < |clients|
      invariant 0 <= i <= |clients|
      invariant |out| == i
      invariant forall j :: 0 <= j < i ==> out[j] == WriteLine(clients[j], payload)
    {
      out := out + [WriteLine(clients[i], payload)];
      i := i + 1;
    }
  }

  /**
   * The client manager with a mutable list: the `ClientManager` class of
   * typed/asyncchat/ChatServer.java, and the list the untyped `clientManager`
   * behaviours of asyncchat/ and loomchat/ChatServer.java capture.
   */
  class ClientManager {
    var clients: seq<Address>
    /** The protocol messages handled so far and the tells they caused. */
    ghost var history: seq<Protocol>
    ghost var sent: seq<Send>

    /** The list holds exactly the registered clients, and every line went to the clients registered before it. */
    ghost predicate Valid()
      reads this
    {
      clients == Registered(history) && sent == Transcript(history)
    }

    /** `new ClientManager()` (or `new ArrayList<Address>()`): no client yet. */
    constructor ()
      ensures Valid() && clients == [] && history == [] && sent == []
    {
      clients := [];
      history, sent := [], [];
    }

    /** `apply(msg)`: register or broadcast, then `Stay()`. */
    method Apply(msg: Protocol) returns (out: seq<Send>, effect: Effect<()>)
      requires Valid()
      modifies this
      ensures Valid() && effect == Stay
      ensures history == old(history) + [msg] && sent == old(sent) + out
      ensures msg.ClientConnected? ==> clients == old(clients) + [msg.addr] && out == []
      ensures msg.LineRead? ==> clients == old(clients) && out == Broadcast(clients, msg.payload)
    {
      HistorySnoc(history, msg);
      match msg {
        case ClientConnected(a) =>
          clients := clients + [a];
          out := [];
        case LineRead(payload) =>
          out := BroadcastEach(clients, payload);
      }
      history := history + [msg];
      sent := sent + out;
      effect := Stay;
    }

    /** The untyped behaviour: anything but a protocol message throws and changes nothing. */
    method ApplyAny(msg: Incoming) returns (out: seq<Send>, faulted: bool)
      requires Valid()
      modifies this
      ensures Valid()
      ensures faulted <==> msg.Unrecognised?
      ensures msg.Unrecognised? ==> clients == old(clients) && history == old(history) && out == []
      ensures msg.Known? ==> history == old(history) + [msg.msg]
      ensures sent == old(sent) + out
    {
      match msg
      case Unrecognised =>
        out, faulted := [], true;
      case Known(p) =>
        var effect;
        out, effect := Apply(p);
        faulted := false;
    }
  }

  /**
   * typed/loomchat/ChatServer.java: the initial behaviour `msg -> clientManager(msg)`
   * makes a fresh empty list on every message, so until the first connection a
   * line reaches nobody; the first `ClientConnected` becomes a behaviour bound
   * to a list, which later connections extend.
   */
  datatype Registry = Fresh | Bound(clients: seq<Address>)

  function Manage(r: Registry, msg: Protocol): (res: Reaction<Registry, Send>)
    ensures res.Handled?
  {
    var clients := if r.Fresh? then [] else r.clients;
    match msg
    case ClientConnected(a) => Handled(Become(Live(Bound(clients + [a]))), [])
    case LineRead(payload) => Handled(Stay, Broadcast(clients, payload))
  }

  /** `actorOf(self -> msg -> clientManager(msg))`: a typed actor starting from a fresh list. */
  function TypedLoomManager(): (r: Program<Protocol, Registry, Send>)
    ensures forall m :: r.boot(m).None?
    ensures forall s, m :: Apply(r, Live(s), m) == Manage(s, m)
  {
    Program((r, m) => Manage(r, m), (m: Protocol) => None)
  }

  function RegistryOf(clients: seq<Address>): Registry
  {
    if clients == [] then Fresh else Bound(clients)
  }

  /**
   * After any history, the `Become`-threaded manager holds exactly the
   * registered clients and has sent exactly the transcript: it behaves as
   * the manager with a mutable list.
   */
  lemma {:induction false} TypedLoomManagerTracksHistory(history: seq<Protocol>)
    ensures Replay(TypedLoomManager(), Live(Fresh), history) ==
      (Live(RegistryOf(Registered(history))), Transcript(history))
    decreases |history|
  {
    if history != [] {
      var h, m := history[..|history| - 1], history[|history| - 1];
      assert history == h + [m];
      TypedLoomManagerTracksHistory(h);
      HistorySnoc(h, m);
      var r := RegistryOf(Registered(h));
      var clients := if r.Fresh? then [] else r.clients;
      assert clients == Registered(h);
      match m {
        case ClientConnected(a) =>
          assert Deliver(TypedLoomManager(), Live(r), m) == (Live(RegistryOf(Registered(history))), []);
        case LineRead(p) =>
          assert Registered(history) == Registered(h) + [] == Registered(h);
          assert Deliver(TypedLoomManager(), Live(r), m) == (Live(RegistryOf(Registered(history))), Broadcast(clients, p));
      }
    }
  }

  /**
   * The acceptor: `serverSocketHandler` of asyncchat/ChatServer.java and
   * `ServerSocket.handler` of typed/asyncchat/ChatServer.java. Each accepted
   * connection spawns a channel actor with a fresh address and tells the
   * manager `ClientConnected` with that address. The fresh address `actorOf`
   * returns is modelled by a counter of spawned actors.
   */
  datatype Acceptor = Acceptor(nextId: nat)

  datatype Connection = ClientConnection(socket: nat) | OtherObject

  datatype AcceptorOut =
    | SpawnChannel(socket: nat, addr: Address)  // `system.actorOf(ca -> socketHandler(ca, ..., conn.socket()))`
    | ToManager(msg: Protocol)                  // `childrenManager.tell(new ClientConnected(client))`

  function Accept(s: Acceptor, msg: Connection): (r: Reaction<Acceptor, AcceptorOut>)
    ensures msg.ClientConnection? <==> r.Handled?
    ensures r.Handled? ==> (r.effect == Become(Live(Acceptor(s.nextId + 1))) &&
      r.sent == [SpawnChannel(msg.socket, Address(s.nextId)), ToManager(ClientConnected(Address(s.nextId)))])
    ensures r.Fault? ==> r.sent == []
  {
    match msg
    case ClientConnection(socket) =>
      var client := Address(s.nextId);
      Handled(Become(Live(Acceptor(s.nextId + 1))), [SpawnChannel(socket, client), ToManager(ClientConnected(client))])
    case OtherObject => Fault([])
  }

  /** The acceptor as an actor: it runs `Accept` in every state and needs no bootstrap message. */
  function AcceptorProgram(): (r: Program<Connection, Acceptor, AcceptorOut>)
    ensures forall m :: r.boot(m).None?
    ensures forall s, m :: Apply(r, Live(s), m) == Accept(s, m)
  {
    Program((s, m) => Accept(s, m), (m: Connection) => None)
  }

  /** The connections for a sequence of accepted sockets. */
  function Connections(sockets: seq<nat>): (ms: seq<Connection>)
    decreases |sockets|
  {
    if sockets == [] then [] else Connections(sockets[..|sockets| - 1]) + [ClientConnection(sockets[|sockets| - 1])]
  }

  /** The messages the acceptor's tells put in the manager's mailbox, in order. */
  function ToManagerMessages(out: seq<AcceptorOut>): seq<Protocol>
    decreases |out|
  {
    if out == [] then []
    else
      var last := out[|out| - 1];
      ToManagerMessages(out[..|out| - 1]) + (if last.ToManager? then [last.msg] else [])
  }

  lemma {:induction false} ToManagerMessagesAppend(xs: seq<AcceptorOut>, ys: seq<AcceptorOut>)
    ensures ToManagerMessages(xs + ys) == ToManagerMessages(xs) + ToManagerMessages(ys)
    decreases |ys|
  {
    if ys == [] {
      assert xs + ys == xs;
    } else {
      assert (xs + ys)[..|xs + ys| - 1] == xs + ys[..|ys| - 1];
      ToManagerMessagesAppend(xs, ys[..|ys| - 1]);
    }
  }

  /** The addresses `n`, `n + 1`, ..., `n + k - 1`. */
  function FreshAddresses(n: nat, k: nat): (addrs: seq<Address>)
    ensures |addrs| == k
    ensures forall i :: 0 <= i < k ==> addrs[i] == Address(n + i)
    decreases k
  {
    if k == 0 then [] else FreshAddresses(n, k - 1) + [Address(n + k - 1)]
  }

  /** What the acceptor tells for the sockets, accepted from counter `n` on. */
  function Accepted(n: nat, sockets: seq<nat>): seq<AcceptorOut>
    decreases |sockets|
  {
    if sockets == [] then []
    else
      var k := |sockets| - 1;
      Accepted(n, sockets[..k]) + [SpawnChannel(sockets[k], Address(n + k)), ToManager(ClientConnected(Address(n + k)))]
  }

  lemma {:induction false} AcceptorReplay(n: nat, sockets: seq<nat>)
    ensures Replay(AcceptorProgram(), Live(Acceptor(n)), Connections(sockets)) ==
      (Live(Acceptor(n + |sockets|)), Accepted(n, sockets))
    decreases |sockets|
  {
    if sockets != [] {
      var k := |sockets| - 1;
      var client := Address(n + k);
      AcceptorReplay(n, sockets[..k]);
      ReplayStep(AcceptorProgram(), Live(Acceptor(n)), Connections(sockets[..k]), ClientConnection(sockets[k]),
        Live(Acceptor(n + k)), Accepted(n, sockets[..k]),
        Live(Acceptor(n + k + 1)), [SpawnChannel(sockets[k], client), ToManager(ClientConnected(client))]);
    }
  }

  /** Of one acceptance's two tells, only the second reaches the manager. */
  lemma AcceptanceTellsManager(socket: nat, client: Address)
    ensures ToManagerMessages([SpawnChannel(socket, client), ToManager(ClientConnected(client))]) == [ClientConnected(client)]
  {
    var step := [SpawnChannel(socket, client), ToManager(ClientConnected(client))];
    assert step[..1] == [SpawnChannel(socket, client)];
    assert ToManagerMessages(step[..1]) == [] by {
      assert step[..1][..0] == [];
    }
  }

  lemma {:induction false} AcceptedRegistersFresh(n: nat, sockets: seq<nat>)
    ensures Registered(ToManagerMessages(Accepted(n, sockets))) == FreshAddresses(n, |sockets|)
    decreases |sockets|
  {
    if sockets != [] {
      var k := |sockets| - 1;
      var client := Address(n + k);
      var before := Accepted(n, sockets[..k]);
      var step := [SpawnChannel(sockets[k], client), ToManager(ClientConnected(client))];
      AcceptedRegistersFresh(n, sockets[..k]);
      ToManagerMessagesAppend(before, step);
      AcceptanceTellsManager(sockets[k], client);
      HistorySnoc(ToManagerMessages(before), ClientConnected(client));
    }
  }

  /**
   * Accepting `k` connections registers `k` clients with the manager, in the
   * order they were accepted, each at the fresh address of the channel actor
   * spawned for it, so no two registered clients share an address.
   */
  lemma {:induction false} AcceptedClientsRegistered(n: nat, sockets: seq<nat>)
    ensures Replay(AcceptorProgram(), Live(Acceptor(n)), Connections(sockets)).0 == Live(Acceptor(n + |sockets|))
    ensures Registered(ToManagerMessages(Replay(AcceptorProgram(), Live(Acceptor(n)), Connections(sockets)).1)) ==
      FreshAddresses(n, |sockets|)
    ensures var clients := Registered(ToManagerMessages(Replay(AcceptorProgram(), Live(Acceptor(n)), Connections(sockets)).1));
      forall i, j :: 0 <= i < j < |clients| ==> clients[i] != clients[j]
  {
    AcceptorReplay(n, sockets);
    AcceptedRegistersFresh(n, sockets);
  }
}

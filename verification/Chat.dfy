/** The client registry of tests/chat/chat_server.cpp: the operations that run under
    `clientsMutex`, and the broadcasts they send. */
module Chat {

  type Socket = nat

  const INVALID_SOCKET: Socket := 0xFFFF_FFFF_FFFF_FFFF

  /** Contexts are numbered in allocation order, so that a reused address is a new context. */
  type Context = nat

  datatype ClientState = AwaitingNickname | InChat

  datatype ClientInfo = ClientInfo(socket: Socket, nickname: string, context: Context, state: ClientState)

  /** The global log: one entry for each broadcast, in the order they were made. */
  datatype Entry =
    | Joined(who: Context, nick: string)
    | Said(who: Context, nick: string, text: string)
    | Left(who: Context, nick: string)

  /** One `send` to a registered client's socket. */
  datatype Delivery = Delivery(to: Context, text: string)

  /** `sockets` holds the contexts that have been allocated and not deleted. */
  datatype Hub = Hub(
    clients: seq<ClientInfo>,
    sockets: map<Context, Socket>,
    freed: seq<Context>,
    pending: multiset<Context>,  // reads outstanding
    sends: seq<Delivery>,
    prompted: set<Context>,
    log: seq<Entry>)

  const PROMPT := "Enter your nickname: "

  function Render(e: Entry): string {
    match e
    case Joined(_, nick) => "User " + nick + " joined the chat\n"
    case Said(_, nick, text) => nick + ": " + text + "\n"
    case Left(_, nick) => "User " + nick + " left the chat\n"
  }

  function Welcome(nick: string): string {
    "Welcome, " + nick + "!\n"
  }

  // ---- The operations -----------------------------------------------------------------

  /** `find_if`: the index of the first client that satisfies `p`, or the number of clients. */
  function FindIf(clients: seq<ClientInfo>, p: ClientInfo -> bool): (i: nat)
    ensures i <= |clients| && (i < |clients| ==> p(clients[i]))
    ensures forall k :: 0 <= k < i ==> !p(clients[k])
  {
    if clients == [] || p(clients[0]) then 0 else 1 + FindIf(clients[1..], p)
  }

  function SocketIndex(clients: seq<ClientInfo>, socket: Socket): nat {
    FindIf(clients, (ci: ClientInfo) => ci.socket == socket)
  }

  function ContextIndex(clients: seq<ClientInfo>, context: Context): nat {
    FindIf(clients, (ci: ClientInfo) => ci.context == context)
  }

  predicate Hearing(client: ClientInfo, exclude: Socket) {
    client.socket != exclude && client.state == InChat
  }

  /** What a broadcast sends, in registry order. */
  function Deliveries(clients: seq<ClientInfo>, text: string, exclude: Socket): seq<Delivery> {
    if clients == [] then [] else
      var last := clients[|clients| - 1];
      Deliveries(clients[..|clients| - 1], text, exclude)
      + if Hearing(last, exclude) then [Delivery(last.context, text)] else []
  }

  /** Log an entry and broadcast it. */
  function Announced(h: Hub, e: Entry, exclude: Socket): Hub {
    h.(log := h.log + [e], sends := h.sends + Deliveries(h.clients, Render(e), exclude))
  }

  function RemovedAt(h: Hub, i: nat): Hub
    requires i < |h.clients|
  {
    var client := h.clients[i];
    var g := if client.state == InChat then Announced(h, Left(client.context, client.nickname), INVALID_SOCKET) else h;
    g.(clients := h.clients[..i] + h.clients[i + 1..],
       sockets := h.sockets - {client.context},
       freed := h.freed + [client.context])
  }

  function ClientAdded(h: Hub, client: ClientInfo): Hub {
    h.(clients := h.clients + [client])
  }

  function Removed(h: Hub, socket: Socket): Hub {
    var i := SocketIndex(h.clients, socket);
    if i < |h.clients| then RemovedAt(h, i) else h
  }

  /** `startAsyncReceive`. */
  function Receiving(h: Hub, context: Context, recvOk: bool): Hub
    requires context in h.sockets
  {
    if recvOk then h.(pending := h.pending + multiset{context}) else Removed(h, h.sockets[context])
  }

  function Nicknamed(h: Hub, i: nat, nickname: string): Hub
    requires i < |h.clients|
  {
    var client := h.clients[i].(nickname := nickname, state := InChat);
    var g := h.(clients := h.clients[i := client], sends := h.sends + [Delivery(client.context, Welcome(nickname))]);
    Announced(g, Joined(client.context, nickname), INVALID_SOCKET)
  }

  function Spoken(h: Hub, i: nat, text: string): Hub
    requires i < |h.clients|
  {
    Announced(h, Said(h.clients[i].context, h.clients[i].nickname, text), h.clients[i].socket)
  }

  /** The phase a completed read belongs to. */
  function Phase(h: Hub, i: nat, message: string): Hub
    requires i < |h.clients|
  {
    if h.clients[i].state == AwaitingNickname then Nicknamed(h, i, message) else Spoken(h, i, message)
  }

  function Completed(h: Hub, context: Context, message: string, recvOk: bool): Hub
    requires context in h.sockets
  {
    var i := ContextIndex(h.clients, context);
    if i < |h.clients| then Receiving(Phase(h, i, message), context, recvOk)
    else h.(sockets := h.sockets - {context}, freed := h.freed + [context])
  }

  // ---- The object ---------------------------------------------------------------------

  class Server {
    var clients: seq<ClientInfo>
    var sockets: map<Context, Socket>
    ghost var freed: seq<Context>
    ghost var pending: multiset<Context>
    ghost var sends: seq<Delivery>
    ghost var prompted: set<Context>
    ghost var log: seq<Entry>

    ghost function State(): Hub
      reads this
    {
      Hub(clients, sockets, freed, pending, sends, prompted, log)
    }

    method BroadcastMessage(text: string, exclude: Socket)
      modifies this`sends
      ensures sends == old(sends) + Deliveries(clients, text, exclude)
    {
      for i := 0 to |clients|
        invariant sends == old(sends) + Deliveries(clients[..i], text, exclude)
      {
        assert clients[..i + 1][..i] == clients[..i];
        if clients[i].socket != exclude && clients[i].state == InChat {
          sends := sends + [Delivery(clients[i].context, text)];
        }
      }
      assert clients[..|clients|] == clients;
    }

    method AddClient(client: ClientInfo)
      modifies this`clients
      ensures State() == ClientAdded(old(State()), client)
    {
      clients := clients + [client];
    }

    method Find(p: ClientInfo -> bool) returns (i: nat)
      ensures i == FindIf(clients, p)
    {
      i := 0;
      while i < |clients| && !p(clients[i])
        invariant i <= |clients| && FindIf(clients, p) == i + FindIf(clients[i..], p)
      {
        assert clients[i..][1..] == clients[i + 1..];
        i := i + 1;
      }
    }

    method RemoveClient(socket: Socket)
      modifies this
      ensures State() == Removed(old(State()), socket)
    {
      var i := Find((ci: ClientInfo) => ci.socket == socket);
      if i < |clients| {
        var client := clients[i];
        if client.state == InChat {
          log := log + [Left(client.context, client.nickname)];
          BroadcastMessage("User " + client.nickname + " left the chat\n", INVALID_SOCKET);
        }
        sockets := sockets - {client.context};
        freed := freed + [client.context];
        clients := clients[..i] + clients[i + 1..];
      }
    }

    method StartAsyncReceive(context: Context, recvOk: bool)
      requires context in sockets
      modifies this
      ensures State() == Receiving(old(State()), context, recvOk)
    {
      if recvOk {
        pending := pending + multiset{context};
      } else {
        RemoveClient(sockets[context]);
      }
    }

    method HandleNicknamePhase(i: nat, nickname: string)
      requires i < |clients|
      modifies this
      ensures State() == Nicknamed(old(State()), i, nickname)
    {
      clients := clients[i := clients[i].(nickname := nickname)];
      clients := clients[i := clients[i].(state := InChat)];
      assert clients == old(clients)[i := old(clients)[i].(nickname := nickname, state := InChat)];
      sends := sends + [Delivery(clients[i].context, "Welcome, " + clients[i].nickname + "!\n")];
      log := log + [Joined(clients[i].context, nickname)];
      BroadcastMessage("User " + clients[i].nickname + " joined the chat\n", INVALID_SOCKET);
    }

    method HandleChatPhase(i: nat, message: string)
      requires i < |clients|
      modifies this
      ensures State() == Spoken(old(State()), i, message)
    {
      var fullMsg := clients[i].nickname + ": " + message + "\n";
      log := log + [Said(clients[i].context, clients[i].nickname, message)];
      BroadcastMessage(fullMsg, clients[i].socket);
    }

    /** `message` is what the completed read left in the context's buffer. */
    method HandleIOCompletion(context: Context, message: string, recvOk: bool)
      requires context in sockets
      modifies this
      ensures State() == Completed(old(State()), context, message, recvOk)
    {
      var i := Find((ci: ClientInfo) => ci.context == context);
      if i == |clients| {
        sockets := sockets - {context};
        freed := freed + [context];
        return;
      }
      match clients[i].state {
        case AwaitingNickname => HandleNicknamePhase(i, message);
        case InChat => HandleChatPhase(i, message);
      }
      StartAsyncReceive(context, recvOk);
    }
  }
}

/** Every run of the chat server while it is running: the acceptor thread and the workers take their
    steps in any order, and the system completes, fails or refuses any operation. */
module ChatRuns {
  import opened Chat
  import opened ChatLog
  import opened ChatLaws

  /** Where the acceptor thread is between two of its steps. */
  datatype Acceptor =
    | Waiting
    | Accepted(context: Context, socket: Socket)  // context allocated, client not yet added
    | Added(context: Context)                     // client added, prompt not yet sent
    | Prompted(context: Context)                  // prompt sent, first read not yet started

  /** `held` maps a worker to the context of the completion it has dequeued. */
  datatype World = World(hub: Hub, next: Context, held: map<nat, Context>, acceptor: Acceptor)

  datatype Step =
    | Accept(socket: Socket, associated: bool)
    | Add
    | SendPrompt
    | FirstRead(recvOk: bool)
    | Dequeue(worker: nat, context: Context)
    | Drop(worker: nat)                                      // failed or empty completion
    | Handle(worker: nat, message: string, recvOk: bool)

  const START := World(Hub([], map[], [], multiset{}, [], {}, []), 0, map[], Waiting)

  /** The system never hands out a socket that is still open, a completion arrives only for a read
      that is outstanding, and it carries between 1 and 1023 octets. */
  ghost predicate Enabled(w: World, s: Step) {
    match s
    case Accept(socket, _) =>
      w.acceptor.Waiting? && socket != INVALID_SOCKET
      && forall c: Context :: c in w.hub.sockets ==> w.hub.sockets[c] != socket
    case Add => w.acceptor.Accepted?
    case SendPrompt => w.acceptor.Added?
    case FirstRead(_) => w.acceptor.Prompted?
    case Dequeue(worker, context) => worker !in w.held && context in w.hub.pending
    case Drop(worker) => worker in w.held
    case Handle(worker, message, _) => worker in w.held && 1 <= |message| <= 1023
  }

  /** No step reads a context that has been deleted. */
  ghost predicate NoDangling(w: World, s: Step)
    requires Enabled(w, s)
  {
    match s
    case FirstRead(_) => w.acceptor.context in w.hub.sockets
    case Drop(worker) => w.held[worker] in w.hub.sockets
    case Handle(worker, _, _) => w.held[worker] in w.hub.sockets
    case _ => true
  }

  ghost function Next(w: World, s: Step): World
    requires Enabled(w, s) && NoDangling(w, s)
  {
    var h := w.hub;
    match s
    case Accept(socket, associated) =>
      if associated then
        w.(hub := h.(sockets := h.sockets[w.next := socket]), next := w.next + 1, acceptor := Accepted(w.next, socket))
      else w.(hub := h.(freed := h.freed + [w.next]), next := w.next + 1)
    case Add =>
      var client := ClientInfo(w.acceptor.socket, "", w.acceptor.context, AwaitingNickname);
      w.(hub := ClientAdded(h, client), acceptor := Added(w.acceptor.context))
    case SendPrompt =>
      var c := w.acceptor.context;
      w.(hub := h.(sends := h.sends + [Delivery(c, PROMPT)], prompted := h.prompted + {c}), acceptor := Prompted(c))
    case FirstRead(recvOk) =>
      w.(hub := Receiving(h, w.acceptor.context, recvOk), acceptor := Waiting)
    case Dequeue(worker, context) =>
      w.(hub := h.(pending := h.pending - multiset{context}), held := w.held[worker := context])
    case Drop(worker) =>
      w.(hub := Removed(h, h.sockets[w.held[worker]]), held := w.held - {worker})
    case Handle(worker, message, recvOk) =>
      w.(hub := Completed(h, w.held[worker], message, recvOk), held := w.held - {worker})
  }

  // ---- Ownership ----------------------------------------------------------------------

  /** The contexts of the registered clients. */
  ghost function Contexts(h: Hub): set<Context> {
    set i | 0 <= i < |h.clients| :: h.clients[i].context
  }

  /** The registered context the acceptor is still working on. */
  function Mine(a: Acceptor): set<Context> {
    if a.Added? || a.Prompted? then {a.context} else {}
  }

  /** Every one of the contexts `all` is with exactly one party: the system (one outstanding read),
      one worker, or the acceptor (`mine`). Any other context is with nobody. */
  ghost predicate Owners(pending: multiset<Context>, held: map<nat, Context>, mine: set<Context>, all: set<Context>) {
    && (forall c: Context :: pending[c] <= 1)
    && (forall c: Context :: c in pending ==> c in all && c !in mine)
    && (forall k :: k in held ==> held[k] in all && held[k] !in mine && held[k] !in pending)
    && (forall j, k :: j in held && k in held && j != k ==> held[j] != held[k])
    && mine <= all
    && (forall c: Context :: c in all ==> c in pending || c in mine || c in held.Values)
  }

  /** Contexts are live or freed, never both, and freed at most once; a live context is that of a
      registered client or the one the acceptor has just allocated for a socket of its own. */
  ghost predicate Heap(
    sockets: map<Context, Socket>, freed: seq<Context>, next: Context, a: Acceptor, all: set<Context>)
  {
    && (forall c: Context :: c in sockets ==> c < next && c !in freed)
    && (forall c: Context :: c in freed ==> c < next)
    && (forall i, j :: 0 <= i < j < |freed| ==> freed[i] != freed[j])
    && (forall c: Context :: c in sockets <==> c in all || (a.Accepted? && c == a.context))
    && (a.Accepted? ==> a.context !in all && sockets[a.context] == a.socket != INVALID_SOCKET)
    && (a.Accepted? ==> forall c: Context :: c in all ==> sockets[c] != a.socket)
  }

  /** A context is prompted exactly when the acceptor has got that far with it. */
  ghost predicate Prompts(log: seq<Entry>, prompted: set<Context>, next: Context, a: Acceptor, all: set<Context>) {
    && (forall c: Context :: c >= next || (a.Accepted? && c == a.context) || (a.Added? && c == a.context) ==>
          Silent(log, c) && c !in prompted)
    && (forall c: Context :: c in all && !(a.Added? && c == a.context) ==> c in prompted)
  }

  ghost predicate Inv(w: World) {
    var h, all := w.hub, Contexts(w.hub);
    && RegistryInv(h) && HistoryInv(h)
    && Owners(h.pending, w.held, Mine(w.acceptor), all)
    && Heap(h.sockets, h.freed, w.next, w.acceptor, all)
    && Prompts(h.log, h.prompted, w.next, w.acceptor, all)
  }

  /** The invariant while the context `c` is out of its owner's hands, before it is handed on or deleted. */
  ghost predicate InHand(w: World, c: Context) {
    var h, all := w.hub, Contexts(w.hub);
    && RegistryInv(h) && HistoryInv(h)
    && c in all && c !in Mine(w.acceptor)
    && Owners(h.pending, w.held, Mine(w.acceptor), all - {c})
    && Heap(h.sockets, h.freed, w.next, w.acceptor, all)
    && Prompts(h.log, h.prompted, w.next, w.acceptor, all)
  }

  lemma ContextsAre(h: Hub)
    ensures forall c: Context :: c in Contexts(h) <==> Registered(h, c)
  {
    forall c: Context ensures c in Contexts(h) <==> Registered(h, c) {
      if Registered(h, c) {
        var i: nat :| At(h, i, c);
      }
      if c in Contexts(h) {
        var i :| 0 <= i < |h.clients| && h.clients[i].context == c;
        assert At(h, i, c);
      }
    }
  }

  lemma InvNoDangling(w: World, s: Step)
    requires Inv(w) && Enabled(w, s)
    ensures NoDangling(w, s)
  {
    hide HistoryInv, RegistryInv, Prompts, Contexts;
  }

  lemma HeldIsRegistered(w: World, worker: nat)
    requires Inv(w) && worker in w.held
    ensures var c := w.held[worker];
            && c in w.hub.sockets
            && ContextIndex(w.hub.clients, c) < |w.hub.clients|
            && SocketIndex(w.hub.clients, w.hub.sockets[c]) == ContextIndex(w.hub.clients, c)
  {
    hide HistoryInv, Prompts;
    var i :| 0 <= i < |w.hub.clients| && w.hub.clients[i].context == w.held[worker];
    SocketFindsClient(w.hub, i);
  }

  // ---- How ownership moves ------------------------------------------------------------

  lemma OwnersAdd(pending: multiset<Context>, held: map<nat, Context>, all: set<Context>, c: Context)
    requires Owners(pending, held, {}, all) && c !in all
    ensures Owners(pending, held, {c}, all + {c})
  {
  }

  lemma OwnersDequeue(
    pending: multiset<Context>, held: map<nat, Context>, mine: set<Context>, all: set<Context>, k: nat, c: Context)
    requires Owners(pending, held, mine, all) && c in pending && k !in held
    ensures Owners(pending - multiset{c}, held[k := c], mine, all)
  {
    var next := held[k := c];
    assert forall d: Context :: d in held.Values ==> d in next.Values by {
      forall d: Context | d in held.Values ensures d in next.Values {
        var j :| j in held && held[j] == d;
        assert j in next && next[j] == d;
      }
    }
    assert k in next && next[k] == c;
  }

  lemma OwnersLetGo(pending: multiset<Context>, held: map<nat, Context>, mine: set<Context>, all: set<Context>, k: nat)
    requires Owners(pending, held, mine, all) && k in held
    ensures Owners(pending, held - {k}, mine, all - {held[k]})
  {
    var next := held - {k};
    forall d: Context | d in held.Values && d != held[k] ensures d in next.Values {
      var j :| j in held && held[j] == d;
      assert j in next && next[j] == d;
    }
  }

  lemma OwnersHandBack(
    pending: multiset<Context>, held: map<nat, Context>, mine: set<Context>, all: set<Context>, c: Context)
    requires Owners(pending, held, mine, all - {c}) && c in all && c !in mine
    ensures Owners(pending + multiset{c}, held, mine, all)
  {
  }

  // ---- Acceptor steps -----------------------------------------------------------------

  lemma SameHistory(h: Hub, g: Hub)
    requires HistoryInv(h)
    requires g.clients == h.clients && g.log == h.log && g.sends == h.sends && g.prompted == h.prompted
    ensures HistoryInv(g)
  {
    hide View, Inbox, InChatAfter, NickAfter, Silent, WellFormed;
    forall c: Context ensures StatusInv(g, c) && TranscriptInv(g, c) {
      assert StatusInv(h, c) && TranscriptInv(h, c);
      SameRegistry(h, g, c);
      assert forall i: nat :: At(g, i, c) ==> At(h, i, c);
    }
  }

  lemma SameClients(h: Hub, g: Hub)
    requires RegistryInv(h) && g.clients == h.clients
    requires forall c: Context :: c in Contexts(h) ==> c in g.sockets && c in h.sockets && g.sockets[c] == h.sockets[c]
    ensures RegistryInv(g) && Contexts(g) == Contexts(h)
  {
    assert forall i :: 0 <= i < |h.clients| ==> h.clients[i].context in Contexts(h);
  }

  lemma HeapLive(sockets: map<Context, Socket>, freed: seq<Context>, next: Context, a: Acceptor, all: set<Context>)
    requires Heap(sockets, freed, next, a, all)
    ensures forall c: Context :: c in all ==> c in sockets
  {
  }

  lemma HeapAllocate(
    sockets: map<Context, Socket>, freed: seq<Context>, next: Context, all: set<Context>, socket: Socket)
    requires Heap(sockets, freed, next, Waiting, all) && socket != INVALID_SOCKET
    requires forall c: Context :: c in sockets ==> sockets[c] != socket
    ensures Heap(sockets[next := socket], freed, next + 1, Accepted(next, socket), all)
  {
  }

  lemma HeapRefuse(sockets: map<Context, Socket>, freed: seq<Context>, next: Context, all: set<Context>)
    requires Heap(sockets, freed, next, Waiting, all)
    ensures Heap(sockets, freed + [next], next + 1, Waiting, all)
  {
    var more := freed + [next];
    assert forall c: Context :: c in more <==> c in freed || c == next;
    assert forall i :: 0 <= i < |freed| ==> freed[i] in freed;
  }

  lemma AcceptKeeps(w: World, socket: Socket, associated: bool)
    requires Inv(w) && Enabled(w, Accept(socket, associated))
    ensures Inv(Next(w, Accept(socket, associated)))
  {
    var x := Next(w, Accept(socket, associated));
    SameHistory(w.hub, x.hub);
    if associated {
      HeapAllocate(w.hub.sockets, w.hub.freed, w.next, Contexts(w.hub), socket);
    } else {
      HeapRefuse(w.hub.sockets, w.hub.freed, w.next, Contexts(w.hub));
    }
    HeapFresh(w.hub.sockets, w.hub.freed, w.next, w.acceptor, Contexts(w.hub));
    HeapLive(w.hub.sockets, w.hub.freed, w.next, w.acceptor, Contexts(w.hub));
    SameClients(w.hub, x.hub);
    hide HistoryInv, RegistryInv, Owners, Silent, Heap, Contexts;
  }

  lemma HeapFresh(sockets: map<Context, Socket>, freed: seq<Context>, next: Context, a: Acceptor, all: set<Context>)
    requires Heap(sockets, freed, next, a, all)
    ensures next !in sockets && next !in freed && next !in all
  {
  }

  lemma AddedContexts(h: Hub, client: ClientInfo)
    ensures Contexts(h.(clients := h.clients + [client])) == Contexts(h) + {client.context}
  {
    var g := h.(clients := h.clients + [client]);
    forall c: Context | c in Contexts(h) + {client.context} ensures c in Contexts(g) {
      if c == client.context {
        assert g.clients[|h.clients|].context == c;
      } else {
        var i :| 0 <= i < |h.clients| && h.clients[i].context == c;
        assert g.clients[i].context == c;
      }
    }
  }

  lemma AddedHistory(h: Hub, client: ClientInfo)
    requires HistoryInv(h) && client.state == AwaitingNickname
    requires Silent(h.log, client.context) && !Registered(h, client.context)
    ensures HistoryInv(h.(clients := h.clients + [client]))
  {
    hide View, Inbox, InChatAfter, NickAfter, WellFormed, Silent;
    var g := h.(clients := h.clients + [client]);
    forall c: Context ensures StatusInv(g, c) && TranscriptInv(g, c) {
      assert StatusInv(h, c) && TranscriptInv(h, c);
      assert forall i: nat :: At(g, i, c) && i < |h.clients| ==> At(h, i, c);
      if Registered(h, c) {
        var i: nat :| At(h, i, c);
        assert At(g, i, c);
      }
    }
  }

  lemma AddedRegistryInv(h: Hub, client: ClientInfo)
    requires RegistryInv(h) && client.context !in Contexts(h) && client.context in h.sockets
    requires h.sockets[client.context] == client.socket != INVALID_SOCKET
    requires forall c: Context :: c in Contexts(h) ==> c in h.sockets && h.sockets[c] != client.socket
    ensures RegistryInv(h.(clients := h.clients + [client]))
  {
    forall i | 0 <= i < |h.clients|
      ensures h.clients[i].context != client.context && h.clients[i].socket != client.socket
    {
      assert h.clients[i].context in Contexts(h);
    }
  }

  lemma HeapAdd(sockets: map<Context, Socket>, freed: seq<Context>, next: Context, a: Acceptor, all: set<Context>)
    requires Heap(sockets, freed, next, a, all) && a.Accepted?
    ensures Heap(sockets, freed, next, Added(a.context), all + {a.context})
  {
  }

  lemma PromptsAdd(log: seq<Entry>, prompted: set<Context>, next: Context, a: Acceptor, all: set<Context>)
    requires Prompts(log, prompted, next, a, all) && a.Accepted?
    ensures Prompts(log, prompted, next, Added(a.context), all + {a.context})
  {
    hide Silent;
  }

  lemma AddKeeps(w: World)
    requires Inv(w) && Enabled(w, Add)
    ensures Inv(Next(w, Add))
  {
    var client := ClientInfo(w.acceptor.socket, "", w.acceptor.context, AwaitingNickname);
    var all := Contexts(w.hub);
    ContextsAre(w.hub);
    AddedContexts(w.hub, client);
    AddedHistory(w.hub, client);
    AddedRegistryInv(w.hub, client);
    OwnersAdd(w.hub.pending, w.held, all, client.context);
    HeapAdd(w.hub.sockets, w.hub.freed, w.next, w.acceptor, all);
    PromptsAdd(w.hub.log, w.hub.prompted, w.next, w.acceptor, all);
    hide HistoryInv, Owners, Heap, Prompts, RegistryInv, Contexts;
  }

  lemma PromptHistory(h: Hub, c: Context)
    requires HistoryInv(h) && c !in h.prompted && Silent(h.log, c)
    ensures HistoryInv(h.(sends := h.sends + [Delivery(c, PROMPT)], prompted := h.prompted + {c}))
  {
    hide View, Inbox, InChatAfter, NickAfter, WellFormed, Silent;
    var g := h.(sends := h.sends + [Delivery(c, PROMPT)], prompted := h.prompted + {c});
    forall d: Context ensures StatusInv(g, d) && TranscriptInv(g, d) {
      assert StatusInv(h, d) && TranscriptInv(h, d);
      SameRegistry(h, g, d);
      InboxOne(h.sends, Delivery(c, PROMPT), d);
      assert forall i: nat :: At(g, i, d) ==> At(h, i, d);
      if d == c {
        SilentSession(h.log, c);
      }
    }
  }

  lemma PromptKeeps(w: World)
    requires Inv(w) && Enabled(w, SendPrompt)
    ensures Inv(Next(w, SendPrompt))
  {
    var x := Next(w, SendPrompt);
    var c := w.acceptor.context;
    PromptHistory(w.hub, c);
    HeapLive(w.hub.sockets, w.hub.freed, w.next, w.acceptor, Contexts(w.hub));
    SameClients(w.hub, x.hub);
    hide HistoryInv, RegistryInv, Silent, Owners, Contexts;
    assert c < w.next by {
      assert c in Mine(w.acceptor);
      OwnersLive(w.hub.pending, w.held, Mine(w.acceptor), Contexts(w.hub));
    }
    assert Mine(x.acceptor) == Mine(w.acceptor);
  }

  lemma OwnersLive(pending: multiset<Context>, held: map<nat, Context>, mine: set<Context>, all: set<Context>)
    requires Owners(pending, held, mine, all)
    ensures mine <= all
  {
  }

  lemma DequeueKeeps(w: World, worker: nat, context: Context)
    requires Inv(w) && Enabled(w, Dequeue(worker, context))
    ensures Inv(Next(w, Dequeue(worker, context)))
  {
    var x := Next(w, Dequeue(worker, context));
    SameHistory(w.hub, x.hub);
    OwnersDequeue(w.hub.pending, w.held, Mine(w.acceptor), Contexts(w.hub), worker, context);
    HeapLive(w.hub.sockets, w.hub.freed, w.next, w.acceptor, Contexts(w.hub));
    SameClients(w.hub, x.hub);
    hide HistoryInv, RegistryInv, Owners, Heap, Prompts, Contexts;
  }

  // ---- Completions --------------------------------------------------------------------

  lemma WorkerLetsGo(w: World, worker: nat)
    requires Inv(w) && worker in w.held
    ensures InHand(w.(held := w.held - {worker}), w.held[worker])
  {
    OwnersLetGo(w.hub.pending, w.held, Mine(w.acceptor), Contexts(w.hub), worker);
    hide HistoryInv, RegistryInv, Heap, Prompts, Contexts;
  }

  lemma AcceptorLetsGo(w: World)
    requires Inv(w) && w.acceptor.Prompted?
    ensures InHand(w.(acceptor := Waiting), w.acceptor.context)
  {
    hide HistoryInv, RegistryInv, Contexts, Silent;
    assert Owners(w.hub.pending, w.held, {}, Contexts(w.hub) - {w.acceptor.context});
  }

  lemma HandBackKeeps(w: World, c: Context)
    requires InHand(w, c)
    ensures Inv(w.(hub := w.hub.(pending := w.hub.pending + multiset{c})))
  {
    var x := w.(hub := w.hub.(pending := w.hub.pending + multiset{c}));
    SameHistory(w.hub, x.hub);
    OwnersHandBack(w.hub.pending, w.held, Mine(w.acceptor), Contexts(w.hub), c);
    HeapLive(w.hub.sockets, w.hub.freed, w.next, w.acceptor, Contexts(w.hub));
    SameClients(w.hub, x.hub);
    hide HistoryInv, RegistryInv, Owners, Heap, Prompts, Contexts;
  }

  lemma RemovedFields(h: Hub, i: nat)
    requires i < |h.clients|
    ensures var g, client := RemovedAt(h, i), h.clients[i];
            && g.freed == h.freed + [client.context] && g.sockets == h.sockets - {client.context}
            && g.pending == h.pending && g.prompted == h.prompted
            && g.log == if client.state == InChat then h.log + [Left(client.context, client.nickname)] else h.log
  {
  }

  lemma RemovedContexts(h: Hub, i: nat)
    requires RegistryInv(h) && i < |h.clients|
    ensures Contexts(RemovedAt(h, i)) == Contexts(h) - {h.clients[i].context}
  {
    RemovedRegistry(h, i);
    ContextsAre(h);
    ContextsAre(RemovedAt(h, i));
    hide Contexts, RemovedAt, RegistryInv, Registered;
  }

  lemma HeapFree(
    sockets: map<Context, Socket>, freed: seq<Context>, next: Context, a: Acceptor, all: set<Context>, c: Context)
    requires Heap(sockets, freed, next, a, all) && c in all
    ensures Heap(sockets - {c}, freed + [c], next, a, all - {c})
  {
  }

  /** An entry about a registered client other than the acceptor's leaves the prompts right. */
  lemma PromptsEntry(log: seq<Entry>, prompted: set<Context>, next: Context, a: Acceptor, all: set<Context>, e: Entry)
    requires Prompts(log, prompted, next, a, all) && e.who in prompted
    ensures Prompts(log + [e], prompted, next, a, all)
    ensures Prompts(log, prompted, next, a, all - {e.who})
    ensures Prompts(log + [e], prompted, next, a, all - {e.who})
  {
    hide InChatAfter, NickAfter, View;
    forall c: Context ensures Silent(log + [e], c) <==> Silent(log, c) && e.who != c {
      ViewStep(log, e, c);
    }
    hide Silent;
  }

  lemma InHandPrompted(w: World, c: Context)
    requires InHand(w, c)
    ensures c in w.hub.prompted && c in w.hub.sockets
  {
    hide HistoryInv, RegistryInv, Owners, Contexts, Silent;
  }

  lemma DeleteKeeps(w: World, c: Context)
    requires InHand(w, c) && c in w.hub.sockets
    ensures Inv(w.(hub := Removed(w.hub, w.hub.sockets[c])))
  {
    InHandPrompted(w, c);
    var i :| 0 <= i < |w.hub.clients| && w.hub.clients[i].context == c;
    SocketFindsClient(w.hub, i);
    assert w.hub.sockets[c] == w.hub.clients[i].socket;
    var x := w.(hub := RemovedAt(w.hub, i));
    assert x.hub == Removed(w.hub, w.hub.sockets[c]);
    RemovedKeeps(w.hub, i);
    RemovedContexts(w.hub, i);
    RemovedFields(w.hub, i);
    HeapFree(w.hub.sockets, w.hub.freed, w.next, w.acceptor, Contexts(w.hub), c);
    PromptsEntry(w.hub.log, w.hub.prompted, w.next, w.acceptor, Contexts(w.hub), Left(c, w.hub.clients[i].nickname));
    hide HistoryInv, RegistryInv, RemovedAt, Removed, Owners, Heap, Prompts, Contexts;
  }

  lemma PhaseFields(h: Hub, i: nat, message: string) returns (e: Entry)
    requires i < |h.clients|
    ensures var g := Phase(h, i, message);
            && g.freed == h.freed && g.sockets == h.sockets && g.pending == h.pending && g.prompted == h.prompted
            && g.log == h.log + [e] && e.who == h.clients[i].context
            && Contexts(g) == Contexts(h)
  {
    hide Deliveries, Render;
    var g := Phase(h, i, message);
    e := if h.clients[i].state == AwaitingNickname then Joined(h.clients[i].context, message)
         else Said(h.clients[i].context, h.clients[i].nickname, message);
    assert |g.clients| == |h.clients|;
    assert forall k :: 0 <= k < |h.clients| ==> g.clients[k].context == h.clients[k].context;
  }

  lemma PhaseKeeps(w: World, c: Context, message: string)
    requires InHand(w, c)
    ensures ContextIndex(w.hub.clients, c) < |w.hub.clients|
    ensures InHand(w.(hub := Phase(w.hub, ContextIndex(w.hub.clients, c), message)), c)
  {
    InHandPrompted(w, c);
    var i :| 0 <= i < |w.hub.clients| && w.hub.clients[i].context == c;
    SocketFindsClient(w.hub, i);
    if w.hub.clients[i].state == AwaitingNickname {
      NicknamedKeeps(w.hub, i, message);
    } else {
      SpokenKeeps(w.hub, i, message);
    }
    assert RegistryInv(Phase(w.hub, i, message)) && HistoryInv(Phase(w.hub, i, message));
    var e := PhaseFields(w.hub, i, message);
    PromptsEntry(w.hub.log, w.hub.prompted, w.next, w.acceptor, Contexts(w.hub), e);
    hide HistoryInv, RegistryInv, Phase, Owners, Heap, Prompts, Contexts;
  }

  lemma ReceivingKeeps(w: World, c: Context, recvOk: bool)
    requires InHand(w, c) && c in w.hub.sockets
    ensures Inv(w.(hub := Receiving(w.hub, c, recvOk)))
  {
    hide InHand, Inv, Removed;
    if recvOk {
      HandBackKeeps(w, c);
    } else {
      DeleteKeeps(w, c);
    }
  }

  lemma FirstReadKeeps(w: World, recvOk: bool)
    requires Inv(w) && Enabled(w, FirstRead(recvOk))
    ensures NoDangling(w, FirstRead(recvOk)) && Inv(Next(w, FirstRead(recvOk)))
  {
    InvNoDangling(w, FirstRead(recvOk));
    hide Inv, InHand, Receiving;
    AcceptorLetsGo(w);
    ReceivingKeeps(w.(acceptor := Waiting), w.acceptor.context, recvOk);
  }

  lemma DropKeeps(w: World, worker: nat)
    requires Inv(w) && Enabled(w, Drop(worker))
    ensures NoDangling(w, Drop(worker)) && Inv(Next(w, Drop(worker)))
  {
    InvNoDangling(w, Drop(worker));
    hide Inv, InHand, Removed;
    WorkerLetsGo(w, worker);
    DeleteKeeps(w.(held := w.held - {worker}), w.held[worker]);
  }

  /** A worker that handles a completion lets go of it, runs the phase, then starts the next read. */
  lemma HandleParts(w: World, worker: nat, message: string, recvOk: bool)
    requires Enabled(w, Handle(worker, message, recvOk)) && NoDangling(w, Handle(worker, message, recvOk))
    requires ContextIndex(w.hub.clients, w.held[worker]) < |w.hub.clients|
    ensures var c := w.held[worker];
            Next(w, Handle(worker, message, recvOk))
            == w.(held := w.held - {worker},
                  hub := Receiving(Phase(w.hub, ContextIndex(w.hub.clients, c), message), c, recvOk))
  {
    hide Phase, Receiving, ContextIndex;
  }

  lemma HandleKeeps(w: World, worker: nat, message: string, recvOk: bool)
    requires Inv(w) && Enabled(w, Handle(worker, message, recvOk))
    ensures NoDangling(w, Handle(worker, message, recvOk)) && Inv(Next(w, Handle(worker, message, recvOk)))
  {
    InvNoDangling(w, Handle(worker, message, recvOk));
    hide Inv, InHand, Phase, Receiving, ContextIndex, Next, Completed;
    WorkerLetsGo(w, worker);
    var x, c := w.(held := w.held - {worker}), w.held[worker];
    PhaseKeeps(x, c, message);
    HandleParts(w, worker, message, recvOk);
    var i := ContextIndex(x.hub.clients, c);
    var e := PhaseFields(x.hub, i, message);
    ReceivingKeeps(x.(hub := Phase(x.hub, i, message)), c, recvOk);
  }

  lemma StepKeeps(w: World, s: Step)
    requires Inv(w) && Enabled(w, s)
    ensures NoDangling(w, s) && Inv(Next(w, s))
  {
    hide Inv, Next;
    match s
    case Accept(socket, associated) => AcceptKeeps(w, socket, associated);
    case Add => AddKeeps(w);
    case SendPrompt => PromptKeeps(w);
    case FirstRead(recvOk) => FirstReadKeeps(w, recvOk);
    case Dequeue(worker, context) => DequeueKeeps(w, worker, context);
    case Drop(worker) => DropKeeps(w, worker);
    case Handle(worker, message, recvOk) => HandleKeeps(w, worker, message, recvOk);
  }

  // ---- Every run ----------------------------------------------------------------------

  /** A run: each step is enabled in the state it is taken in. */
  ghost predicate IsRun(w: World, steps: seq<Step>)
    decreases |steps|
  {
    steps == [] || (Enabled(w, steps[0]) && (NoDangling(w, steps[0]) ==> IsRun(Next(w, steps[0]), steps[1..])))
  }

  /** A run in which no step ever touched a deleted context, and the state it ends in. */
  ghost predicate ReachedBy(w: World, steps: seq<Step>, x: World)
    decreases |steps|
  {
    if steps == [] then w == x
    else Enabled(w, steps[0]) && NoDangling(w, steps[0]) && ReachedBy(Next(w, steps[0]), steps[1..], x)
  }

  lemma {:induction false} RunKeeps(w: World, steps: seq<Step>) returns (x: World)
    requires Inv(w) && IsRun(w, steps)
    ensures ReachedBy(w, steps, x) && Inv(x)
    decreases |steps|
  {
    hide Inv, Next, Enabled, NoDangling;
    if steps == [] {
      x := w;
    } else {
      StepKeeps(w, steps[0]);
      x := RunKeeps(Next(w, steps[0]), steps[1..]);
    }
  }

  lemma StartInv()
    ensures Inv(START)
  {
    forall c: Context ensures StatusInv(START.hub, c) && TranscriptInv(START.hub, c) {
    }
  }

  /** Whatever the interleaving, no step of a run from the start touches a deleted context, and the
      state it reaches satisfies every invariant. */
  lemma EveryRunIsSafe(steps: seq<Step>) returns (x: World)
    requires IsRun(START, steps)
    ensures ReachedBy(START, steps, x) && Inv(x)
  {
    StartInv();
    x := RunKeeps(START, steps);
  }

  lemma {:induction false} OneEnd(w: World, steps: seq<Step>, x: World, y: World)
    requires ReachedBy(w, steps, x) && ReachedBy(w, steps, y)
    ensures x == y
    decreases |steps|
  {
    if steps != [] {
      OneEnd(Next(w, steps[0]), steps[1..], x, y);
    }
  }

  lemma {:induction false} ReachedIsRun(w: World, steps: seq<Step>, x: World)
    requires ReachedBy(w, steps, x)
    ensures IsRun(w, steps)
    decreases |steps|
  {
    if steps != [] {
      ReachedIsRun(Next(w, steps[0]), steps[1..], x);
    }
  }

  lemma ReachedInv(steps: seq<Step>, x: World)
    requires ReachedBy(START, steps, x)
    ensures Inv(x)
  {
    hide Inv;
    ReachedIsRun(START, steps, x);
    var y := EveryRunIsSafe(steps);
    OneEnd(START, steps, x, y);
  }

  /** Over every run, every client has been sent the prompt followed by the projection of the one
      global log onto its time in the chat, and the log is a sequence of well-ordered sessions. */
  lemma TranscriptsFollowLog(steps: seq<Step>, x: World, c: Context)
    requires ReachedBy(START, steps, x)
    ensures WellFormed(x.hub.log)
    ensures var log := x.hub.log;
            && Below(Heard(log, c), |log|)
            && Inbox(x.hub.sends, c) == (if c in x.hub.prompted then [PROMPT] else []) + LinesAt(log, Heard(log, c), c)
  {
    ReachedInv(steps, x);
    assert StatusInv(x.hub, c) && TranscriptInv(x.hub, c);
    ViewIsHeard(x.hub.log, c);
  }

  /** Over every run, a context is deleted at most once and never while it is live; a live one
      belongs to exactly one registered client or is the acceptor's newest, and has at most one read
      outstanding and never one while a worker holds it. */
  lemma ContextsAreOwned(steps: seq<Step>, x: World, c: Context)
    requires ReachedBy(START, steps, x)
    ensures c in x.hub.sockets ==> c !in x.hub.freed
    ensures forall i, j :: 0 <= i < j < |x.hub.freed| ==> x.hub.freed[i] != x.hub.freed[j]
    ensures c in x.hub.sockets <==> Registered(x.hub, c) || (x.acceptor.Accepted? && x.acceptor.context == c)
    ensures forall i, j: nat :: At(x.hub, i, c) && At(x.hub, j, c) ==> i == j
    ensures x.hub.pending[c] <= 1 && (c in x.hub.pending ==> Registered(x.hub, c) && c !in x.held.Values)
  {
    ReachedInv(steps, x);
    ContextsAre(x.hub);
    hide HistoryInv, Prompts, Contexts, Registered;
  }

  predicate Extends(h: Hub, g: Hub) {
    h.log <= g.log && h.sends <= g.sends
  }

  lemma RemovedExtends(h: Hub, socket: Socket)
    ensures Extends(h, Removed(h, socket))
  {
    hide Deliveries, Render;
  }

  lemma PhaseExtends(h: Hub, i: nat, message: string)
    requires i < |h.clients|
    ensures Extends(h, Phase(h, i, message))
  {
    hide Deliveries, Render, Welcome;
  }

  lemma StepExtendsLog(w: World, s: Step)
    requires Enabled(w, s) && NoDangling(w, s)
    ensures Extends(w.hub, Next(w, s).hub)
  {
    hide Removed, Phase;
    match s
    case FirstRead(_) => RemovedExtends(w.hub, w.hub.sockets[w.acceptor.context]);
    case Drop(worker) => RemovedExtends(w.hub, w.hub.sockets[w.held[worker]]);
    case Handle(worker, message, _) =>
      var c := w.held[worker];
      var i := ContextIndex(w.hub.clients, c);
      if i < |w.hub.clients| {
        var g := Phase(w.hub, i, message);
        PhaseExtends(w.hub, i, message);
        var e := PhaseFields(w.hub, i, message);
        RemovedExtends(g, g.sockets[c]);
      }
    case _ =>
  }

  /** The log and what has been sent only grow, so an earlier state's history is a prefix of a later
      one's. */
  lemma {:induction false} LogOnlyGrows(w: World, steps: seq<Step>, x: World)
    requires ReachedBy(w, steps, x)
    ensures Extends(w.hub, x.hub)
    decreases |steps|
  {
    hide Next, Enabled, NoDangling;
    if steps != [] {
      StepExtendsLog(w, steps[0]);
      LogOnlyGrows(Next(w, steps[0]), steps[1..], x);
    }
  }

  /** Over every run a registered client is in the chat exactly when its join has been logged, and it
      then has the nickname it joined under; a client that has joined never waits for a nickname again. */
  lemma StateFollowsLog(steps: seq<Step>, x: World, i: nat)
    requires ReachedBy(START, steps, x) && i < |x.hub.clients|
    ensures var client := x.hub.clients[i];
            && (client.state == InChat <==> !Silent(x.hub.log, client.context))
            && (client.state == InChat ==> InChatAfter(x.hub.log, client.context)
                                           && client.nickname == NickAfter(x.hub.log, client.context))
  {
    ReachedInv(steps, x);
    var c := x.hub.clients[i].context;
    assert At(x.hub, i, c) && StatusInv(x.hub, c);
    if Silent(x.hub.log, c) {
      SilentSession(x.hub.log, c);
    }
  }

  /** Over every run a dequeued completion finds its own client: the not-found branch of
      `handleIOCompletion` is unreachable, and `removeClient`, which searches by socket, removes the
      client whose completion it was. */
  lemma CompletionFindsClient(steps: seq<Step>, x: World, worker: nat)
    requires ReachedBy(START, steps, x) && worker in x.held
    ensures var c := x.held[worker];
            && c in x.hub.sockets
            && ContextIndex(x.hub.clients, c) < |x.hub.clients|
            && SocketIndex(x.hub.clients, x.hub.sockets[c]) == ContextIndex(x.hub.clients, c)
  {
    ReachedInv(steps, x);
    hide Inv;
    HeldIsRegistered(x, worker);
  }
}

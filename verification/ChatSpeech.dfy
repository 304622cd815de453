/** What the chat server's clients are told, word for word, and what becomes of a client whose
    completion a worker handles. */
module ChatSpeech {
  import opened Chat
  import opened ChatLog
  import opened ChatLaws
  import opened ChatRuns

  // ---- One operation ------------------------------------------------------------------

  /** What a broadcast adds to the inbox of client `k`. */
  lemma BroadcastTells(h: Hub, g: Hub, text: string, exclude: Socket, k: nat)
    requires RegistryInv(h) && k < |h.clients|
    requires g.sends == h.sends + Deliveries(h.clients, text, exclude)
    ensures var c := h.clients[k].context;
            Inbox(g.sends, c) == Inbox(h.sends, c) + if Hearing(h.clients[k], exclude) then [text] else []
  {
    var c := h.clients[k].context;
    ReachedExactly(h, exclude, c, k);
    InboxAppend(h.sends, Deliveries(h.clients, text, exclude), c);
    BroadcastReaches(h.clients, text, exclude, c);
  }

  /** A chat line goes, with the speaker's nickname and the text, to every other client in the chat and
      to nobody else, the speaker included. */
  lemma SpokenTells(h: Hub, i: nat, text: string, k: nat)
    requires RegistryInv(h) && i < |h.clients| && k < |h.clients|
    ensures var g, c := Spoken(h, i, text), h.clients[k].context;
            && g.clients == h.clients
            && Inbox(g.sends, c)
               == Inbox(h.sends, c)
                  + if k != i && h.clients[k].state == InChat then [h.clients[i].nickname + ": " + text + "\n"] else []
  {
    var line := Render(Said(h.clients[i].context, h.clients[i].nickname, text));
    BroadcastTells(h, Spoken(h, i, text), line, h.clients[i].socket, k);
    hide Deliveries, Inbox;
  }

  /** A nickname puts the client in the chat under it. The client is welcomed by it, and its join is told
      to it and to every client in the chat. */
  lemma NicknamedTells(h: Hub, i: nat, nickname: string, k: nat)
    requires RegistryInv(h) && i < |h.clients| && k < |h.clients|
    ensures var g, c := Nicknamed(h, i, nickname), h.clients[k].context;
            var joined := "User " + nickname + " joined the chat\n";
            && g.clients == h.clients[i := h.clients[i].(nickname := nickname, state := InChat)]
            && Inbox(g.sends, c)
               == Inbox(h.sends, c)
                  + if k == i then ["Welcome, " + nickname + "!\n", joined]
                    else if h.clients[k].state == InChat then [joined] else []
  {
    var g, c := Nicknamed(h, i, nickname), h.clients[k].context;
    var welcome := Delivery(h.clients[i].context, Welcome(nickname));
    var mid := h.(clients := g.clients, sends := h.sends + [welcome]);
    NicknamedRegistry(h, i, nickname, c);
    assert RegistryInv(mid);
    InboxOne(h.sends, welcome, c);
    BroadcastTells(mid, g, Render(Joined(h.clients[i].context, nickname)), INVALID_SOCKET, k);
    hide Deliveries, Inbox;
  }

  /** When a client in the chat is removed, everybody in the chat is told, itself included; another
      client goes unannounced. */
  lemma RemovedTells(h: Hub, i: nat, k: nat)
    requires RegistryInv(h) && i < |h.clients| && k < |h.clients|
    ensures var g, client, c := RemovedAt(h, i), h.clients[i], h.clients[k].context;
            && g.clients == h.clients[..i] + h.clients[i + 1..]
            && Inbox(g.sends, c)
               == Inbox(h.sends, c)
                  + if client.state == InChat && h.clients[k].state == InChat
                    then ["User " + client.nickname + " left the chat\n"] else []
  {
    if h.clients[i].state == InChat {
      var left := Left(h.clients[i].context, h.clients[i].nickname);
      BroadcastTells(h, RemovedAt(h, i), Render(left), INVALID_SOCKET, k);
    }
    hide Deliveries, Inbox;
  }

  // ---- One step -----------------------------------------------------------------------

  /** What handling `message` for client `i` says to client `k`. */
  function Says(h: Hub, i: nat, message: string, k: nat): seq<string>
    requires i < |h.clients| && k < |h.clients|
  {
    var joined := "User " + message + " joined the chat\n";
    if h.clients[i].state == InChat then
      if k != i && h.clients[k].state == InChat then [h.clients[i].nickname + ": " + message + "\n"] else []
    else if k == i then ["Welcome, " + message + "!\n", joined]
    else if h.clients[k].state == InChat then [joined] else []
  }

  /** What the failure of its next read then says: the client is in the chat by now. */
  function Leaves(h: Hub, i: nat, message: string, k: nat): seq<string>
    requires i < |h.clients| && k < |h.clients|
  {
    var nickname := if h.clients[i].state == InChat then h.clients[i].nickname else message;
    if k == i || h.clients[k].state == InChat then ["User " + nickname + " left the chat\n"] else []
  }

  lemma PhaseTells(h: Hub, i: nat, message: string, k: nat)
    requires RegistryInv(h) && i < |h.clients| && k < |h.clients|
    ensures var g, c := Phase(h, i, message), h.clients[k].context;
            && RegistryInv(g) && |g.clients| == |h.clients|
            && g.clients[i].state == InChat && g.clients[i].context == h.clients[i].context
            && g.clients[i].nickname == (if h.clients[i].state == InChat then h.clients[i].nickname else message)
            && (k != i ==> g.clients[k] == h.clients[k])
            && g.clients[k].context == c
            && Inbox(g.sends, c) == Inbox(h.sends, c) + Says(h, i, message, k)
  {
    if h.clients[i].state == AwaitingNickname {
      NicknamedTells(h, i, message, k);
      NicknamedRegistry(h, i, message, h.clients[k].context);
    } else {
      SpokenTells(h, i, message, k);
    }
    hide Deliveries, Inbox, Render, Welcome;
  }

  /** Starting the next read of client `i`. */
  lemma ReceivingTells(h: Hub, i: nat, recvOk: bool, k: nat)
    requires RegistryInv(h) && i < |h.clients| && k < |h.clients| && h.clients[i].context in h.sockets
    ensures var x, c := Receiving(h, h.clients[i].context, recvOk), h.clients[i].context;
            && Inbox(x.sends, h.clients[k].context)
               == Inbox(h.sends, h.clients[k].context)
                  + (if !recvOk && h.clients[i].state == InChat && h.clients[k].state == InChat
                     then ["User " + h.clients[i].nickname + " left the chat\n"] else [])
            && (recvOk ==> x == h.(pending := h.pending + multiset{c}))
            && (!recvOk ==> x == RemovedAt(h, i) && !Registered(x, c))
  {
    if !recvOk {
      SocketFindsClient(h, i);
      RemovedTells(h, i, k);
      RemovedRegistry(h, i);
    }
    hide RemovedAt, SocketIndex, Registered, Inbox;
  }

  /** Where a step leaves the registered client `i` it is about. */
  lemma HandleIs(w: World, worker: nat, message: string, recvOk: bool) returns (i: nat)
    requires Inv(w) && Enabled(w, Handle(worker, message, recvOk))
    ensures NoDangling(w, Handle(worker, message, recvOk)) && RegistryInv(w.hub)
    ensures i < |w.hub.clients| && w.hub.clients[i].context == w.held[worker]
    ensures var g := Phase(w.hub, i, message);
            w.held[worker] in g.sockets
            && Next(w, Handle(worker, message, recvOk)).hub == Receiving(g, w.held[worker], recvOk)
  {
    InvNoDangling(w, Handle(worker, message, recvOk));
    HeldIsRegistered(w, worker);
    i := ContextIndex(w.hub.clients, w.held[worker]);
    assert RegistryInv(w.hub);
    hide Inv;
    HandleParts(w, worker, message, recvOk);
    var e := PhaseFields(w.hub, i, message);
    hide Next, Phase, Receiving, RegistryInv;
  }

  lemma DropIs(w: World, worker: nat) returns (i: nat)
    requires Inv(w) && Enabled(w, Drop(worker))
    ensures NoDangling(w, Drop(worker)) && RegistryInv(w.hub)
    ensures i < |w.hub.clients| && w.hub.clients[i].context == w.held[worker]
    ensures Next(w, Drop(worker)).hub == RemovedAt(w.hub, i)
  {
    InvNoDangling(w, Drop(worker));
    HeldIsRegistered(w, worker);
    i := ContextIndex(w.hub.clients, w.held[worker]);
    assert RegistryInv(w.hub);
    hide Inv, RemovedAt, RegistryInv, SocketIndex;
  }

  lemma FirstReadIs(w: World, recvOk: bool) returns (i: nat)
    requires Inv(w) && Enabled(w, FirstRead(recvOk))
    ensures NoDangling(w, FirstRead(recvOk)) && RegistryInv(w.hub)
    ensures i < |w.hub.clients| && w.hub.clients[i].context == w.acceptor.context
    ensures Next(w, FirstRead(recvOk)).hub == Receiving(w.hub, w.acceptor.context, recvOk)
  {
    InvNoDangling(w, FirstRead(recvOk));
    assert w.acceptor.context in Contexts(w.hub);
    i :| 0 <= i < |w.hub.clients| && w.hub.clients[i].context == w.acceptor.context;
    hide HistoryInv, RegistryInv, Receiving;
  }

  /** Over every reachable state: the completion of a registered client's read tells every client exactly
      what the message in it calls for. If the next read is accepted it is outstanding and the client
      stays; if it is refused the client is removed, and that is told too. */
  lemma HandleTells(w: World, worker: nat, message: string, recvOk: bool, k: nat) returns (i: nat)
    requires Inv(w) && Enabled(w, Handle(worker, message, recvOk)) && k < |w.hub.clients|
    ensures NoDangling(w, Handle(worker, message, recvOk))
    ensures At(w.hub, i, w.held[worker])
    ensures var h, x, c := w.hub, Next(w, Handle(worker, message, recvOk)).hub, w.held[worker];
            && Inbox(x.sends, h.clients[k].context)
               == Inbox(h.sends, h.clients[k].context)
                  + Says(h, i, message, k) + (if recvOk then [] else Leaves(h, i, message, k))
            && (if recvOk then
                  && c in x.sockets && x.freed == h.freed && x.pending == h.pending + multiset{c}
                  && |x.clients| == |h.clients| && At(x, i, c) && x.clients[i].state == InChat
                else
                  && c !in x.sockets && x.freed == h.freed + [c] && x.pending == h.pending && !Registered(x, c))
  {
    i := HandleIs(w, worker, message, recvOk);
    hide Inv, Next;
    PhaseTells(w.hub, i, message, k);
    var g := Phase(w.hub, i, message);
    var e := PhaseFields(w.hub, i, message);
    ReceivingTells(g, i, recvOk, k);
    if !recvOk {
      RemovedFields(g, i);
    }
    hide Phase, Receiving, RemovedAt, Registered, Inbox, RegistryInv;
  }

  /** A failed or empty completion removes its client, and tells the chat if it was in it. */
  lemma DropTells(w: World, worker: nat, k: nat) returns (i: nat)
    requires Inv(w) && Enabled(w, Drop(worker)) && k < |w.hub.clients|
    ensures NoDangling(w, Drop(worker))
    ensures At(w.hub, i, w.held[worker])
    ensures var h, x, c := w.hub, Next(w, Drop(worker)).hub, w.held[worker];
            && Inbox(x.sends, h.clients[k].context)
               == Inbox(h.sends, h.clients[k].context)
                  + (if h.clients[i].state == InChat && h.clients[k].state == InChat
                     then ["User " + h.clients[i].nickname + " left the chat\n"] else [])
            && c !in x.sockets && x.freed == h.freed + [c] && x.pending == h.pending && !Registered(x, c)
  {
    i := DropIs(w, worker);
    hide Inv, Next;
    RemovedTells(w.hub, i, k);
    RemovedRegistry(w.hub, i);
    RemovedFields(w.hub, i);
    hide Inbox, RemovedAt, Registered, RegistryInv;
  }

  /** The acceptor asks each new client for its nickname. */
  lemma PromptTells(w: World, c: Context)
    requires Enabled(w, SendPrompt)
    ensures Inbox(Next(w, SendPrompt).hub.sends, c)
            == Inbox(w.hub.sends, c) + if c == w.acceptor.context then ["Enter your nickname: "] else []
  {
    InboxOne(w.hub.sends, Delivery(w.acceptor.context, PROMPT), c);
    hide Inbox;
  }

  // ---- Every run ----------------------------------------------------------------------

  /** The messages a run handles for `c`, in order. */
  ghost function MessagesFrom(w: World, steps: seq<Step>, c: Context): seq<string>
    decreases |steps|
  {
    if steps == [] || !Enabled(w, steps[0]) || !NoDangling(w, steps[0]) then [] else
      HandledFor(w, steps[0], c) + MessagesFrom(Next(w, steps[0]), steps[1..], c)
  }

  ghost function HandledFor(w: World, s: Step, c: Context): seq<string>
    requires Enabled(w, s)
  {
    if s.Handle? && w.held[s.worker] == c then [s.message] else []
  }

  /** What `c` has written, by the log: its nickname first and then its lines. */
  function Written(log: seq<Entry>, c: Context): seq<string> {
    if log == [] then [] else
      var e := Last(log);
      Written(Init(log), c)
      + if e.who != c || e.Left? then [] else if e.Joined? then [e.nick] else [e.text]
  }

  lemma WrittenOne(log: seq<Entry>, e: Entry, c: Context)
    ensures Written(log + [e], c)
            == Written(log, c) + if e.who != c || e.Left? then [] else if e.Joined? then [e.nick] else [e.text]
  {
    assert Init(log + [e]) == log && Last(log + [e]) == e;
  }

  lemma RemovedWrites(h: Hub, i: nat, c: Context)
    requires i < |h.clients|
    ensures Written(RemovedAt(h, i).log, c) == Written(h.log, c)
  {
    WrittenOne(h.log, Left(h.clients[i].context, h.clients[i].nickname), c);
    RemovedFields(h, i);
    hide Written, RemovedAt;
  }

  lemma ReceivingWrites(h: Hub, i: nat, recvOk: bool, c: Context)
    requires RegistryInv(h) && i < |h.clients| && h.clients[i].context in h.sockets
    ensures Written(Receiving(h, h.clients[i].context, recvOk).log, c) == Written(h.log, c)
  {
    ReceivingTells(h, i, recvOk, i);
    RemovedWrites(h, i, c);
    hide Written, Receiving, RemovedAt, RegistryInv, Inbox;
  }

  lemma PhaseWrites(h: Hub, i: nat, message: string, c: Context)
    requires i < |h.clients|
    ensures Written(Phase(h, i, message).log, c)
            == Written(h.log, c) + if h.clients[i].context == c then [message] else []
  {
    var who, nick := h.clients[i].context, h.clients[i].nickname;
    WrittenOne(h.log, Joined(who, message), c);
    WrittenOne(h.log, Said(who, nick, message), c);
    hide Written, Deliveries, Render, Welcome;
  }

  lemma StepWrites(w: World, s: Step, c: Context)
    requires Inv(w) && Enabled(w, s) && NoDangling(w, s)
    ensures Written(Next(w, s).hub.log, c) == Written(w.hub.log, c) + HandledFor(w, s, c)
  {
    hide Inv, Next, NoDangling, Written;
    match s
    case FirstRead(recvOk) => FirstReadWrites(w, recvOk, c);
    case Drop(worker) => DropWrites(w, worker, c);
    case Handle(worker, message, recvOk) => HandleWrites(w, worker, message, recvOk, c);
    case _ => OthersWrite(w, s);
  }

  lemma OthersWrite(w: World, s: Step)
    requires Enabled(w, s) && NoDangling(w, s) && (s.Accept? || s.Add? || s.SendPrompt? || s.Dequeue?)
    ensures Next(w, s).hub.log == w.hub.log
  {
  }

  lemma FirstReadWrites(w: World, recvOk: bool, c: Context)
    requires Inv(w) && Enabled(w, FirstRead(recvOk)) && NoDangling(w, FirstRead(recvOk))
    ensures Written(Next(w, FirstRead(recvOk)).hub.log, c) == Written(w.hub.log, c)
  {
    var i := FirstReadIs(w, recvOk);
    hide Inv, Next;
    ReceivingWrites(w.hub, i, recvOk, c);
    hide RegistryInv, Receiving, Written;
  }

  lemma DropWrites(w: World, worker: nat, c: Context)
    requires Inv(w) && Enabled(w, Drop(worker)) && NoDangling(w, Drop(worker))
    ensures Written(Next(w, Drop(worker)).hub.log, c) == Written(w.hub.log, c)
  {
    var i := DropIs(w, worker);
    hide Inv, Next;
    RemovedWrites(w.hub, i, c);
    hide RegistryInv, RemovedAt, Written;
  }

  lemma HandleWrites(w: World, worker: nat, message: string, recvOk: bool, c: Context)
    requires Inv(w) && Enabled(w, Handle(worker, message, recvOk))
    ensures NoDangling(w, Handle(worker, message, recvOk))
    ensures Written(Next(w, Handle(worker, message, recvOk)).hub.log, c)
            == Written(w.hub.log, c) + if w.held[worker] == c then [message] else []
  {
    var i := HandleIs(w, worker, message, recvOk);
    hide Inv, Next;
    PhaseTells(w.hub, i, message, i);
    PhaseWrites(w.hub, i, message, c);
    ReceivingWrites(Phase(w.hub, i, message), i, recvOk, c);
    hide Written, Phase, Receiving, RegistryInv, Inbox;
  }

  /** Over every run what the log has of a client is exactly the messages handled for it, in order: the
      first as its nickname and the others as its lines. */
  lemma {:induction false} LogIsWhatWasSaid(w: World, steps: seq<Step>, x: World, c: Context)
    requires Inv(w) && ReachedBy(w, steps, x)
    ensures Written(x.hub.log, c) == Written(w.hub.log, c) + MessagesFrom(w, steps, c)
    decreases |steps|
  {
    hide Inv, Next, Enabled, NoDangling, HandledFor, Written;
    if steps == [] {
      assert Written(w.hub.log, c) + [] == Written(w.hub.log, c);
    } else {
      var v, more := Next(w, steps[0]), steps[1..];
      assert MessagesFrom(w, steps, c) == HandledFor(w, steps[0], c) + MessagesFrom(v, more, c);
      StepWrites(w, steps[0], c);
      StepKeeps(w, steps[0]);
      LogIsWhatWasSaid(v, more, x, c);
      hide ReachedBy, MessagesFrom;
      Assoc(Written(w.hub.log, c), HandledFor(w, steps[0], c), MessagesFrom(v, more, c));
    }
  }

  lemma Assoc(a: seq<string>, b: seq<string>, c: seq<string>)
    ensures (a + b) + c == a + (b + c)
  {
  }

  /** From the start: the log has nothing but what clients have written. */
  lemma LogFromStart(steps: seq<Step>, x: World, c: Context)
    requires ReachedBy(START, steps, x)
    ensures Written(x.hub.log, c) == MessagesFrom(START, steps, c)
  {
    StartInv();
    hide Inv;
    LogIsWhatWasSaid(START, steps, x, c);
    hide MessagesFrom;
  }

  /** What deletes context `c`: its association fails, one of its reads is refused, or one of its
      completions failed or was empty. */
  ghost predicate Deletes(w: World, s: Step, c: Context)
    requires Enabled(w, s)
  {
    match s
    case Accept(_, associated) => !associated && c == w.next
    case FirstRead(recvOk) => !recvOk && c == w.acceptor.context
    case Drop(worker) => c == w.held[worker]
    case Handle(worker, _, recvOk) => !recvOk && c == w.held[worker]
    case _ => false
  }

  lemma StepDeletes(w: World, s: Step, c: Context)
    requires Inv(w) && Enabled(w, s) && NoDangling(w, s)
    ensures c in Next(w, s).hub.freed <==> c in w.hub.freed || Deletes(w, s, c)
  {
    match s
    case Accept(_, _) =>
      hide Inv;
      assert forall d: Context :: d in w.hub.freed + [w.next] <==> d in w.hub.freed || d == w.next;
    case FirstRead(recvOk) =>
      var i := FirstReadIs(w, recvOk);
      hide Inv, Next, NoDangling;
      ReceivingFrees(w.hub, i, recvOk);
    case Drop(worker) =>
      var i := DropIs(w, worker);
      hide Inv, Next, NoDangling;
      RemovedFields(w.hub, i);
    case Handle(worker, message, recvOk) =>
      HandleFrees(w, worker, message, recvOk);
      hide Inv, Next, NoDangling;
    case _ =>
      hide Inv;
  }

  lemma ReceivingFrees(h: Hub, i: nat, recvOk: bool)
    requires RegistryInv(h) && i < |h.clients| && h.clients[i].context in h.sockets
    ensures Receiving(h, h.clients[i].context, recvOk).freed == h.freed + if recvOk then [] else [h.clients[i].context]
  {
    ReceivingTells(h, i, recvOk, i);
    RemovedFields(h, i);
    hide Receiving, RemovedAt, RegistryInv, Inbox;
  }

  lemma HandleFrees(w: World, worker: nat, message: string, recvOk: bool)
    requires Inv(w) && Enabled(w, Handle(worker, message, recvOk))
    ensures NoDangling(w, Handle(worker, message, recvOk))
    ensures Next(w, Handle(worker, message, recvOk)).hub.freed
            == w.hub.freed + if recvOk then [] else [w.held[worker]]
  {
    var i := HandleIs(w, worker, message, recvOk);
    hide Inv, Next;
    PhaseTells(w.hub, i, message, i);
    var e := PhaseFields(w.hub, i, message);
    ReceivingFrees(Phase(w.hub, i, message), i, recvOk);
    hide Phase, Receiving, RegistryInv, Inbox;
  }

  ghost predicate SomeDeletes(w: World, steps: seq<Step>, c: Context)
    decreases |steps|
  {
    && steps != [] && Enabled(w, steps[0])
    && (Deletes(w, steps[0], c) || (NoDangling(w, steps[0]) && SomeDeletes(Next(w, steps[0]), steps[1..], c)))
  }

  /** Over every run a context has been deleted exactly if some step of the run deletes it. */
  lemma {:induction false} DeletedExactly(w: World, steps: seq<Step>, x: World, c: Context)
    requires Inv(w) && ReachedBy(w, steps, x)
    ensures c in x.hub.freed <==> c in w.hub.freed || SomeDeletes(w, steps, c)
    decreases |steps|
  {
    if steps != [] {
      hide Inv, Next, Enabled, NoDangling, Deletes;
      StepDeletes(w, steps[0], c);
      StepKeeps(w, steps[0]);
      DeletedExactly(Next(w, steps[0]), steps[1..], x, c);
    }
  }
}

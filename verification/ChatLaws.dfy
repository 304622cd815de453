/** What each operation of the chat server means to each client: what a broadcast adds to what a
    client has been sent, and how every operation keeps registry, log and transcripts in agreement. */
module ChatLaws {
  import opened Chat
  import opened ChatLog

  // ---- What one client has been sent ---------------------------------------------------

  /** Everything sent to `c`, in order. */
  function Inbox(sends: seq<Delivery>, c: Context): seq<string> {
    if sends == [] then [] else
      var d := sends[|sends| - 1];
      Inbox(sends[..|sends| - 1], c) + if d.to == c then [d.text] else []
  }

  lemma {:induction false} InboxAppend(a: seq<Delivery>, b: seq<Delivery>, c: Context)
    ensures Inbox(a + b, c) == Inbox(a, c) + Inbox(b, c)
  {
    if b == [] {
      assert a + b == a;
    } else {
      InboxAppend(a, b[..|b| - 1], c);
      assert (a + b)[..|a + b| - 1] == a + b[..|b| - 1];
    }
  }

  lemma InboxOne(a: seq<Delivery>, d: Delivery, c: Context)
    ensures Inbox(a + [d], c) == Inbox(a, c) + if d.to == c then [d.text] else []
  {
    assert (a + [d])[..|a|] == a;
  }

  /** A registered client, its index and its record. */
  predicate At(h: Hub, i: nat, c: Context) {
    i < |h.clients| && h.clients[i].context == c
  }

  ghost predicate Registered(h: Hub, c: Context) {
    exists i: nat :: At(h, i, c)
  }

  /** Every registered client has its own context and its own socket, and the context is live. */
  ghost predicate RegistryInv(h: Hub) {
    && (forall i, j :: 0 <= i < j < |h.clients| ==>
          h.clients[i].context != h.clients[j].context && h.clients[i].socket != h.clients[j].socket)
    && (forall i :: 0 <= i < |h.clients| ==>
          && h.clients[i].context in h.sockets
          && h.sockets[h.clients[i].context] == h.clients[i].socket != INVALID_SOCKET)
  }

  /** The registry and the log agree on `c`. */
  ghost predicate StatusInv(h: Hub, c: Context) {
    && (forall i: nat :: At(h, i, c) ==>
          if h.clients[i].state == InChat
          then InChatAfter(h.log, c) && NickAfter(h.log, c) == h.clients[i].nickname && c in h.prompted
          else Silent(h.log, c))
    && (!Registered(h, c) ==> !InChatAfter(h.log, c))
  }

  /** `c` has been sent the prompt and then exactly what the global log owes it. */
  ghost predicate TranscriptInv(h: Hub, c: Context) {
    Inbox(h.sends, c) == (if c in h.prompted then [PROMPT] else []) + View(h.log, c)
  }

  ghost predicate HistoryInv(h: Hub) {
    && WellFormed(h.log)
    && (forall c: Context :: StatusInv(h, c) && TranscriptInv(h, c))
  }

  // ---- A broadcast --------------------------------------------------------------------

  ghost predicate DistinctContexts(clients: seq<ClientInfo>) {
    forall i, j :: 0 <= i < j < |clients| ==> clients[i].context != clients[j].context
  }

  ghost predicate Reached(clients: seq<ClientInfo>, exclude: Socket, c: Context) {
    exists i :: 0 <= i < |clients| && clients[i].context == c && Hearing(clients[i], exclude)
  }

  /** With distinct contexts a broadcast reaches each hearing client once and nobody else. */
  lemma {:induction false} BroadcastReaches(clients: seq<ClientInfo>, text: string, exclude: Socket, c: Context)
    requires DistinctContexts(clients)
    ensures Inbox(Deliveries(clients, text, exclude), c) == if Reached(clients, exclude, c) then [text] else []
  {
    if clients != [] {
      var n := |clients| - 1;
      var before := Deliveries(clients[..n], text, exclude);
      BroadcastReaches(clients[..n], text, exclude, c);
      if Hearing(clients[n], exclude) {
        InboxOne(before, Delivery(clients[n].context, text), c);
      } else {
        assert before + [] == before;
      }
      assert forall i :: 0 <= i < n ==> clients[..n][i] == clients[i];
    }
  }

  /** Excluding by socket is excluding by client: a registered client hears unless it is the one excluded. */
  lemma ReachedExactly(h: Hub, exclude: Socket, c: Context, k: nat)
    requires RegistryInv(h) && At(h, k, c)
    ensures Reached(h.clients, exclude, c) <==> Hearing(h.clients[k], exclude)
    ensures forall s: nat, who: Context :: At(h, s, who) && h.clients[s].socket == exclude ==>
              (h.clients[k].socket != exclude <==> c != who)
  {
  }

  lemma ReachedIsHearing(h: Hub, e: Entry, exclude: Socket, c: Context)
    requires RegistryInv(h) && StatusInv(h, c) && !e.Joined?
    requires if e.Said? then exists s: nat :: At(h, s, e.who) && h.clients[s].socket == exclude
             else exclude == INVALID_SOCKET
    ensures Reached(h.clients, exclude, c) <==> Hears(h.log, e, c)
  {
    hide NickAfter, InChatAfter;
    if Registered(h, c) {
      var k: nat :| At(h, k, c);
      ReachedExactly(h, exclude, c, k);
      SilentUnlessInChat(h, c, k);
    } else {
      assert forall i: nat :: i < |h.clients| && h.clients[i].context == c ==> At(h, i, c);
    }
  }

  /** Hence what a broadcast sends to `c` is what the log says `c` should hear. */
  lemma AnnouncedReaches(h: Hub, e: Entry, exclude: Socket, c: Context)
    requires RegistryInv(h) && StatusInv(h, c) && !e.Joined?
    requires if e.Said? then exists s: nat :: At(h, s, e.who) && h.clients[s].socket == exclude
             else exclude == INVALID_SOCKET
    ensures Inbox(Announced(h, e, exclude).sends, c) == Inbox(h.sends, c) + Lines(h.log, e, c)
  {
    ReachedIsHearing(h, e, exclude, c);
    hide Render, StatusInv, Reached, Hears;
    InboxAppend(h.sends, Deliveries(h.clients, Render(e), exclude), c);
    BroadcastReaches(h.clients, Render(e), exclude, c);
  }

  lemma SilentUnlessInChat(h: Hub, c: Context, k: nat)
    requires StatusInv(h, c) && At(h, k, c)
    ensures InChatAfter(h.log, c) <==> h.clients[k].state == InChat
  {
    if h.clients[k].state == AwaitingNickname {
      SilentSession(h.log, c);
    }
  }

  lemma ViewStep(log: seq<Entry>, e: Entry, c: Context)
    ensures View(log + [e], c) == View(log, c) + Lines(log, e, c)
    ensures InChatAfter(log + [e], c)
            == if e.who != c || e.Said? then InChatAfter(log, c) else e.Joined?
    ensures NickAfter(log + [e], c) == if e.who == c && e.Joined? then e.nick else NickAfter(log, c)
    ensures Silent(log + [e], c) <==> Silent(log, c) && e.who != c
  {
    var l := log + [e];
    assert Init(l) == log && Last(l) == e;
    assert forall k :: 0 <= k < |log| ==> l[k] == log[k];
    assert l[|log|] == e;
  }

  // ---- The phases ---------------------------------------------------------------------

  lemma SpokenOne(h: Hub, i: nat, text: string, c: Context)
    requires RegistryInv(h) && i < |h.clients| && h.clients[i].state == InChat
    requires StatusInv(h, c) && TranscriptInv(h, c)
    ensures StatusInv(Spoken(h, i, text), c) && TranscriptInv(Spoken(h, i, text), c)
  {
    hide View, Lines, Inbox, InChatAfter, NickAfter, Silent, Deliveries, Render;
    var e := Said(h.clients[i].context, h.clients[i].nickname, text);
    assert At(h, i, e.who);
    AnnouncedReaches(h, e, h.clients[i].socket, c);
    ViewStep(h.log, e, c);
    SameRegistry(h, Spoken(h, i, text), c);
  }

  lemma SpokenKeeps(h: Hub, i: nat, text: string)
    requires RegistryInv(h) && HistoryInv(h) && i < |h.clients| && h.clients[i].state == InChat
    ensures RegistryInv(Spoken(h, i, text)) && HistoryInv(Spoken(h, i, text))
  {
    hide View, Lines, Deliveries, Inbox;
    var who := h.clients[i].context;
    var g := Spoken(h, i, text);
    assert At(h, i, who);
    assert StatusInv(h, who);
    assert Init(g.log) == h.log && Last(g.log) == Said(who, h.clients[i].nickname, text);
    assert WellFormed(g.log);
    hide StatusInv, TranscriptInv, Spoken;
    forall c: Context ensures StatusInv(g, c) && TranscriptInv(g, c) {
      assert StatusInv(h, c) && TranscriptInv(h, c);
      SpokenOne(h, i, text, c);
    }
  }

  lemma SameRegistry(h: Hub, g: Hub, c: Context)
    requires g.clients == h.clients
    ensures Registered(g, c) <==> Registered(h, c)
    ensures forall i: nat :: At(g, i, c) <==> At(h, i, c)
  {
    if Registered(h, c) {
      var i: nat :| At(h, i, c);
      assert At(g, i, c);
    }
    if Registered(g, c) {
      var i: nat :| At(g, i, c);
      assert At(h, i, c);
    }
  }

  lemma NicknamedReaches(h: Hub, i: nat, nickname: string, c: Context)
    requires RegistryInv(h) && StatusInv(h, c) && i < |h.clients|
    requires h.clients[i].state == AwaitingNickname
    ensures Inbox(Nicknamed(h, i, nickname).sends, c)
            == Inbox(h.sends, c) + Lines(h.log, Joined(h.clients[i].context, nickname), c)
  {
    hide Render, Welcome, NickAfter, InChatAfter;
    var client := h.clients[i].(nickname := nickname, state := InChat);
    var who := client.context;
    var e := Joined(who, nickname);
    var clients := h.clients[i := client];
    var welcome := Delivery(who, Welcome(nickname));
    var all := Deliveries(clients, Render(e), INVALID_SOCKET);
    NewcomerReached(h, i, client, c);
    assert Reached(clients, INVALID_SOCKET, c) <==> Hears(h.log, e, c);
    assert DistinctContexts(clients);
    hide RegistryInv, StatusInv, Reached, Hears, DistinctContexts;
    assert Nicknamed(h, i, nickname).sends == (h.sends + [welcome]) + all;
    InboxAppend(h.sends + [welcome], all, c);
    InboxOne(h.sends, welcome, c);
    BroadcastReaches(clients, Render(e), INVALID_SOCKET, c);
  }

  lemma NewcomerReached(h: Hub, i: nat, client: ClientInfo, c: Context)
    requires RegistryInv(h) && StatusInv(h, c) && i < |h.clients|
    requires client == h.clients[i].(nickname := client.nickname, state := InChat)
    ensures Reached(h.clients[i := client], INVALID_SOCKET, c) <==> c == client.context || InChatAfter(h.log, c)
  {
    hide InChatAfter, NickAfter;
    var clients := h.clients[i := client];
    assert clients[i] == client;
    if c == client.context {
      assert Hearing(clients[i], INVALID_SOCKET);
    } else if Registered(h, c) {
      var k: nat :| At(h, k, c);
      assert clients[k] == h.clients[k];
      SilentUnlessInChat(h, c, k);
    } else {
      assert forall k: nat :: k < |h.clients| && h.clients[k].context == c ==> At(h, k, c);
    }
  }

  lemma NicknamedRegistry(h: Hub, i: nat, nickname: string, c: Context)
    requires RegistryInv(h) && i < |h.clients|
    ensures RegistryInv(Nicknamed(h, i, nickname))
    ensures forall k: nat :: At(Nicknamed(h, i, nickname), k, c) <==> At(h, k, c)
    ensures Registered(Nicknamed(h, i, nickname), c) <==> Registered(h, c)
  {
    hide Deliveries, Render, Welcome;
    var g := Nicknamed(h, i, nickname);
    assert forall k: nat :: At(g, k, c) <==> At(h, k, c);
    if Registered(h, c) {
      var k: nat :| At(h, k, c);
      assert At(g, k, c);
    }
  }

  lemma NicknamedStatus(h: Hub, i: nat, nickname: string, c: Context)
    requires RegistryInv(h) && StatusInv(h, c) && i < |h.clients| && h.clients[i].context in h.prompted
    ensures StatusInv(Nicknamed(h, i, nickname), c)
  {
    hide Deliveries, Render, Welcome, NickAfter, InChatAfter, Silent;
    var g := Nicknamed(h, i, nickname);
    NicknamedRegistry(h, i, nickname, c);
    ViewStep(h.log, Joined(h.clients[i].context, nickname), c);
    forall k: nat | At(g, k, c)
      ensures if g.clients[k].state == InChat
              then InChatAfter(g.log, c) && NickAfter(g.log, c) == g.clients[k].nickname && c in g.prompted
              else Silent(g.log, c)
    {
      assert At(h, k, c);
    }
    assert At(h, i, h.clients[i].context);
  }

  lemma NicknamedKeeps(h: Hub, i: nat, nickname: string)
    requires RegistryInv(h) && HistoryInv(h) && i < |h.clients|
    requires h.clients[i].state == AwaitingNickname && h.clients[i].context in h.prompted
    ensures RegistryInv(Nicknamed(h, i, nickname)) && HistoryInv(Nicknamed(h, i, nickname))
  {
    hide View, Lines, Deliveries, Inbox, NickAfter, InChatAfter, RegistryInv;
    var who := h.clients[i].context;
    var e := Joined(who, nickname);
    var g := Nicknamed(h, i, nickname);
    NicknamedRegistry(h, i, nickname, who);
    assert At(h, i, who);
    assert StatusInv(h, who);
    assert Init(g.log) == h.log && Last(g.log) == e;
    forall c: Context ensures StatusInv(g, c) && TranscriptInv(g, c) {
      assert StatusInv(h, c) && TranscriptInv(h, c);
      NicknamedStatus(h, i, nickname, c);
      NicknamedReaches(h, i, nickname, c);
      ViewStep(h.log, e, c);
    }
  }

  // ---- Removing a client --------------------------------------------------------------

  lemma SocketFindsClient(h: Hub, i: nat)
    requires RegistryInv(h) && i < |h.clients|
    ensures SocketIndex(h.clients, h.clients[i].socket) == i
    ensures ContextIndex(h.clients, h.clients[i].context) == i
  {
  }

  lemma ShiftedAt(h: Hub, i: nat, c: Context, k: nat)
    requires RegistryInv(h) && i < |h.clients|
    requires At(RemovedAt(h, i), k, c)
    ensures At(h, if k < i then k else k + 1, c)
    ensures RemovedAt(h, i).clients[k] == h.clients[if k < i then k else k + 1]
    ensures c != h.clients[i].context
  {
  }

  lemma StillAt(h: Hub, i: nat, c: Context, k: nat)
    requires RegistryInv(h) && i < |h.clients| && c != h.clients[i].context && At(h, k, c)
    ensures At(RemovedAt(h, i), if k < i then k else k - 1, c)
  {
  }

  lemma RemovedRegistry(h: Hub, i: nat)
    requires RegistryInv(h) && i < |h.clients|
    ensures RegistryInv(RemovedAt(h, i))
    ensures forall c: Context :: Registered(RemovedAt(h, i), c) <==> Registered(h, c) && c != h.clients[i].context
  {
    hide Deliveries;
    var g := RemovedAt(h, i);
    forall j, k | 0 <= j < k < |g.clients|
      ensures g.clients[j].context != g.clients[k].context && g.clients[j].socket != g.clients[k].socket
    {
      var j', k' := if j < i then j else j + 1, if k < i then k else k + 1;
      assert g.clients[j] == h.clients[j'] && g.clients[k] == h.clients[k'];
    }
    forall k | 0 <= k < |g.clients|
      ensures g.clients[k].context in g.sockets
      ensures g.sockets[g.clients[k].context] == g.clients[k].socket != INVALID_SOCKET
    {
      assert At(g, k, g.clients[k].context);
      ShiftedAt(h, i, g.clients[k].context, k);
    }
    forall c: Context ensures Registered(g, c) <==> Registered(h, c) && c != h.clients[i].context {
      if Registered(g, c) {
        var k: nat :| At(g, k, c);
        ShiftedAt(h, i, c, k);
      }
      if Registered(h, c) && c != h.clients[i].context {
        var k: nat :| At(h, k, c);
        StillAt(h, i, c, k);
      }
    }
  }

  lemma RemovedStatus(h: Hub, i: nat, c: Context)
    requires RegistryInv(h) && i < |h.clients| && StatusInv(h, c) && StatusInv(h, h.clients[i].context)
    ensures StatusInv(RemovedAt(h, i), c)
  {
    hide Deliveries, Render, NickAfter, InChatAfter, Silent, RegistryInv;
    var g := RemovedAt(h, i);
    var who := h.clients[i].context;
    RemovedRegistry(h, i);
    assert At(h, i, who);
    if h.clients[i].state == InChat {
      ViewStep(h.log, Left(who, h.clients[i].nickname), c);
    } else {
      SilentSession(h.log, who);
    }
    forall k: nat | At(g, k, c)
      ensures if g.clients[k].state == InChat
              then InChatAfter(g.log, c) && NickAfter(g.log, c) == g.clients[k].nickname && c in g.prompted
              else Silent(g.log, c)
    {
      ShiftedAt(h, i, c, k);
    }
  }

  lemma RemovedTranscript(h: Hub, i: nat, c: Context)
    requires RegistryInv(h) && i < |h.clients| && StatusInv(h, c) && TranscriptInv(h, c)
    ensures TranscriptInv(RemovedAt(h, i), c)
  {
    hide RegistryInv, StatusInv, View, Lines, Inbox, InChatAfter, NickAfter, Silent, Deliveries;
    if h.clients[i].state == InChat {
      var e := Left(h.clients[i].context, h.clients[i].nickname);
      AnnouncedReaches(h, e, INVALID_SOCKET, c);
      ViewStep(h.log, e, c);
    }
  }

  lemma RemovedKeeps(h: Hub, i: nat)
    requires RegistryInv(h) && HistoryInv(h) && i < |h.clients|
    ensures RegistryInv(RemovedAt(h, i)) && HistoryInv(RemovedAt(h, i))
  {
    var who := h.clients[i].context;
    var g := RemovedAt(h, i);
    RemovedRegistry(h, i);
    assert At(h, i, who);
    assert StatusInv(h, who);
    hide View, Lines, Deliveries, Inbox, RegistryInv;
    if h.clients[i].state == InChat {
      var e := Left(who, h.clients[i].nickname);
      assert Init(g.log) == h.log && Last(g.log) == e;
    }
    assert WellFormed(g.log);
    hide StatusInv, TranscriptInv, RemovedAt;
    forall c: Context ensures StatusInv(g, c) && TranscriptInv(g, c) {
      assert StatusInv(h, c) && TranscriptInv(h, c);
      RemovedStatus(h, i, c);
      RemovedTranscript(h, i, c);
    }
  }
}

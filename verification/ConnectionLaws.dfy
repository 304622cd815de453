/** What every run of a `WebSocketConnection` keeps, whatever the peer sends, the application calls
    and the operating system answers. */
module ConnectionLaws {
  import opened Octets
  import opened Frame
  import opened Stream
  import opened Connection

  ghost predicate NoDuplicates(s: seq<nat>) {
    forall i, j :: 0 <= i < j < |s| ==> s[i] != s[j]
  }

  /** Every write buffer ever allocated is live or freed, never both, and freed at most once; while
      the connection is open the live ones are exactly those with a send outstanding. */
  ghost predicate Ledger(t: Trace, closed: bool) {
    && t.pending <= t.live
    && (forall id :: id in t.live ==> id < t.created && id !in t.freed)
    && (forall id :: id in t.freed ==> id < t.created)
    && (forall id :: 0 <= id < t.created ==> id in t.live || id in t.freed)
    && NoDuplicates(t.freed)
    && |t.sent| == t.created
    && (!closed ==> t.live == t.pending)
  }

  ghost predicate LifeInv(l: Life) {
    && (l.closed <==> !l.socketOpen)
    && l.trace.closeCalls <= 1
    && (!l.closed ==> l.trace.closeCalls == 0)
    && Ledger(l.trace, l.closed)
  }

  /** An open connection has exactly one read outstanding. It is for between 8 KiB and 16 MiB, and
      within that for the frame whose header is at the front of the buffer, if one is. */
  ghost predicate ReadInv(c: Conn) {
    && c.life.trace.reading <= 1
    && c.expected <= MAX_FRAME_SIZE
    && (!c.life.closed ==>
          && c.life.trace.reading == 1
          && 8192 <= c.requested <= MAX_FRAME_SIZE && c.requested == RequestSize(c.expected)
          && (HeaderSpec(c.readBuffer).Parsed? ==> c.expected == HeaderSpec(c.readBuffer).header.payloadLength))
  }

  /** The frames handled so far are those of the whole octet stream received, as if it had come in
      one piece, and an open connection keeps the unfinished remainder. */
  ghost predicate StreamInv(c: Conn) {
    var d := Drain(c.received);
    && c.life.trace.dispatched == d.frames
    && (!c.life.closed ==> !d.failed && c.readBuffer == d.rest)
  }

  ghost predicate Inv(c: Conn) {
    LifeInv(c.life) && ReadInv(c) && StreamInv(c)
  }

  // ---- One operation ------------------------------------------------------------------

  /** `m` comes after `l`: closing is final, and a closed connection starts no write, runs no close
      callback and frees no buffer. Closing itself abandons no buffer that has no send outstanding, and
      runs the close callback once if there is one. */
  ghost predicate After(l: Life, m: Life) {
    && (l.trace.live == l.trace.pending ==> m.trace.live == m.trace.pending)
    && m.closeCb == l.closeCb
    && m.trace.closeCalls == l.trace.closeCalls + (if !l.closed && m.closed && l.closeCb then 1 else 0)
    && (l.closed ==> m.closed && m.trace.sent == l.trace.sent && m.trace.closeCalls == l.trace.closeCalls
                     && m.trace.freed == l.trace.freed && m.trace.live == l.trace.live)
    && l.trace.sent <= m.trace.sent && l.trace.freed <= m.trace.freed
    && m.trace.reading == l.trace.reading && m.messageCb == l.messageCb
  }

  lemma AfterTrans(l: Life, m: Life, n: Life)
    requires After(l, m) && After(m, n)
    ensures After(l, n) && m.messageCb == l.messageCb
  {
  }

  lemma ClosedKeeps(l: Life)
    requires LifeInv(l)
    ensures LifeInv(Closed(l)) && Closed(l).closed && After(l, Closed(l))
    ensures Closed(l).trace.dispatched == l.trace.dispatched && Closed(l).trace.delivered == l.trace.delivered
  {
  }

  lemma FreshIsNew(s: seq<nat>, id: nat)
    requires NoDuplicates(s) && id !in s
    ensures NoDuplicates(s + [id])
  {
  }

  lemma WrittenKeeps(l: Life, data: seq<Octet>, ok: bool)
    requires LifeInv(l)
    ensures var m := Written(l, data, ok);
            && LifeInv(m) && After(l, m)
            && m.trace.dispatched == l.trace.dispatched && m.trace.delivered == l.trace.delivered
  {
    if !l.closed && !ok {
      var id := l.trace.created;
      var n := l.(trace := l.trace.(created := id + 1, sent := l.trace.sent + [data], freed := l.trace.freed + [id]));
      assert id in n.trace.freed;
      assert forall x :: 0 <= x < id ==> x in l.trace.freed ==> x in n.trace.freed;
      FreshIsNew(l.trace.freed, id);
      assert LifeInv(n);
      ClosedKeeps(n);
    }
  }

  lemma CalledKeeps(l: Life, call: Call)
    requires LifeInv(l)
    ensures var m := Called(l, call);
            && LifeInv(m) && After(l, m)
            && m.trace.dispatched == l.trace.dispatched && m.trace.delivered == l.trace.delivered
  {
    hide CreatedFrame, Written, Closed, LifeInv, After;
    if call.UserClose? {
      ClosedKeeps(l);
    } else {
      WrittenKeeps(l, CreatedFrame(call), call.sendOk);
    }
  }

  lemma {:induction false} CalledAllKeeps(l: Life, calls: seq<Call>)
    requires LifeInv(l)
    ensures var m := CalledAll(l, calls);
            && LifeInv(m) && After(l, m)
            && m.trace.dispatched == l.trace.dispatched && m.trace.delivered == l.trace.delivered
    decreases |calls|
  {
    hide Called, LifeInv;
    if calls != [] {
      CalledKeeps(l, calls[0]);
      CalledAllKeeps(Called(l, calls[0]), calls[1..]);
      AfterTrans(l, Called(l, calls[0]), CalledAll(l, calls));
      hide After;
    }
  }

  function MessageOf(f: Dispatch): seq<Message> {
    if f.header.opcode == TEXT || f.header.opcode == BINARY then [Decoded(f.header, f.payload)] else []
  }

  /** The text and binary messages among the frames, in order. */
  function MessagesOf(frames: seq<Dispatch>): seq<Message> {
    if frames == [] then [] else MessageOf(frames[0]) + MessagesOf(frames[1..])
  }

  /** What is only noted about frames and messages matters to neither invariant nor order. */
  lemma NotedKeeps(l: Life, dispatched: seq<Dispatch>, delivered: seq<Message>)
    requires LifeInv(l)
    ensures var m := l.(trace := l.trace.(dispatched := dispatched, delivered := delivered));
            LifeInv(m) && After(l, m)
  {
  }

  lemma HandledKeeps(l: Life, f: Dispatch, r: Reply)
    requires LifeInv(l) && RightLength(f)
    ensures var m := Handled(l, f, r);
            && LifeInv(m) && After(l, m)
            && m.trace.dispatched == l.trace.dispatched + [f]
            && m.trace.delivered == l.trace.delivered + if l.messageCb then MessageOf(f) else []
  {
    hide Decoded, PongFor, LifeInv, After, Written, Closed, CalledAll;
    var message := Decoded(f.header, f.payload);
    var frames := l.trace.dispatched + [f];
    var m := l.(trace := l.trace.(dispatched := frames));
    NotedKeeps(l, frames, l.trace.delivered);
    if f.header.opcode == PING {
      WrittenKeeps(m, PongFor(message), r.sendOk);
      AfterTrans(l, m, Handled(l, f, r));
    } else if f.header.opcode == CLOSE {
      ClosedKeeps(m);
      AfterTrans(l, m, Closed(m));
    } else if MessageOf(f) != [] && l.messageCb {
      var n := l.(trace := l.trace.(dispatched := frames, delivered := l.trace.delivered + [message]));
      NotedKeeps(l, frames, n.trace.delivered);
      DeliveredKeeps(n, r);
      AfterTrans(l, n, Handled(l, f, r));
    }
  }

  /** The message callback's turn. */
  lemma DeliveredKeeps(l: Life, r: Reply)
    requires LifeInv(l)
    ensures var n := CalledAll(l, r.calls);
            var m := if r.callbackThrows then Closed(n) else n;
            && LifeInv(m) && After(l, m)
            && m.trace.dispatched == l.trace.dispatched && m.trace.delivered == l.trace.delivered
  {
    hide CalledAll, Closed, LifeInv, After;
    CalledAllKeeps(l, r.calls);
    var n := CalledAll(l, r.calls);
    ClosedKeeps(n);
    AfterTrans(l, n, Closed(n));
  }

  lemma {:induction false} HandledAllKeeps(l: Life, frames: seq<Dispatch>, replies: seq<Reply>)
    requires LifeInv(l) && Sized(frames) && forall f :: f in frames ==> RightLength(f)
    ensures var m := HandledAll(l, frames, replies);
            && LifeInv(m) && After(l, m)
            && m.trace.dispatched == l.trace.dispatched + frames
            && m.trace.delivered == l.trace.delivered + if l.messageCb then MessagesOf(frames) else []
    decreases |frames|
  {
    hide Handled, LifeInv, MessageOf, RightLength, FirstReply, LaterReplies;
    if frames != [] {
      var m := Handled(l, frames[0], FirstReply(replies));
      HandledKeeps(l, frames[0], FirstReply(replies));
      HandledAllKeeps(m, frames[1..], LaterReplies(replies));
      AfterTrans(l, m, HandledAll(l, frames, replies));
      assert frames == [frames[0]] + frames[1..];
    }
  }

  /** A read asks for at least 8 KiB, at most 16 MiB, and within that for the whole frame awaited. */
  lemma RequestSizeBounds(expected: nat)
    ensures 8192 <= RequestSize(expected) <= MAX_FRAME_SIZE
    ensures RequestSize(expected) < expected + MAX_HEADER_SIZE ==> RequestSize(expected) == MAX_FRAME_SIZE
    ensures RequestSize(expected) > expected + MAX_HEADER_SIZE ==> RequestSize(expected) == 8192
  {
  }

  lemma {:induction false} MessagesAppend(a: seq<Dispatch>, b: seq<Dispatch>)
    ensures MessagesOf(a + b) == MessagesOf(a) + MessagesOf(b)
  {
    hide MessageOf;
    if a == [] {
      assert a + b == b;
    } else {
      MessagesAppend(a[1..], b);
      assert (a + b)[1..] == a[1..] + b && (a + b)[0] == a[0];
    }
  }

  /** A read taken from the system, processed, and not yet followed by the next read. */
  lemma ProcessedKeeps(c: Conn, data: seq<Octet>, replies: seq<Reply>)
    requires LifeInv(c.life) && StreamInv(c) && !c.life.closed && c.expected <= MAX_FRAME_SIZE
    ensures var e := Processed(c, data, replies);
            && LifeInv(e.life) && After(c.life, e.life)
            && e.life.trace.dispatched == Drain(e.received).frames
            && Throws(c, data) == Drain(e.received).failed
            && (!Throws(c, data) ==> e.readBuffer == Drain(e.received).rest)
            && e.expected <= MAX_FRAME_SIZE
            && (!Throws(c, data) && HeaderSpec(e.readBuffer).Parsed? ==>
                  e.expected == HeaderSpec(e.readBuffer).header.payloadLength)
            && e.life.trace.delivered
               == c.life.trace.delivered
                  + if c.life.messageCb then MessagesOf(Drain(c.readBuffer + data).frames) else []
  {
    hide FrontOf, HandledAll, LifeInv, HeaderSpec;
    var d := Drain(c.readBuffer + data);
    DrainedLengths(c.readBuffer + data);
    HandledAllKeeps(c.life, d.frames, replies);
    DrainAppend(c.received, data);
    if !d.failed {
      Residue(c.readBuffer + data);
    } else {
      FailedWaitsNot(c.readBuffer + data);
    }
  }

  lemma {:induction false} FailedWaitsNot(buf: seq<Octet>)
    requires Drain(buf).failed
    ensures Drain(buf).waiting == None
    decreases |buf|
  {
    hide HeaderSpec;
    if FrontOf(buf).Cut? {
      FailedWaitsNot(buf[FrontOf(buf).size..]);
    }
  }

  lemma TakenKeeps(l: Life, done: Done)
    requires LifeInv(l) && done.ReadDone?
    ensures LifeInv(l.(trace := Taken(l.trace, done)))
  {
  }

  lemma WriteCompletionKeeps(c: Conn, id: nat, count: nat, replies: seq<Reply>, recvOk: bool)
    requires Inv(c) && id in c.life.trace.pending
    ensures Inv(Completed(c, WriteDone(id, count), replies, recvOk))
  {
    hide Drain;
    var t := Taken(c.life.trace, WriteDone(id, count));
    if !c.life.closed {
      var u := t.(live := t.live - {id}, freed := t.freed + [id]);
      assert id in u.freed;
      assert forall x :: x in t.freed ==> x in u.freed;
      assert Ledger(u, false);
      ClosedKeeps(c.life.(trace := u));
    }
  }

  lemma ReadCompletionKeeps(c: Conn, bytes: seq<Octet>, replies: seq<Reply>, recvOk: bool)
    requires Inv(c) && c.life.trace.reading > 0
    ensures Inv(Completed(c, ReadDone(bytes), replies, recvOk))
  {
    hide Drain, HandledAll, Ledger;
    TakenKeeps(c.life, ReadDone(bytes));
    var d := c.(life := c.life.(trace := Taken(c.life.trace, ReadDone(bytes))));
    if !c.life.closed {
      ClosedKeeps(d.life);
      if bytes != [] {
        ProcessedKeeps(d, bytes, replies);
        var e := Processed(d, bytes, replies);
        ClosedKeeps(e.life);
        RequestSizeBounds(e.expected);
        if !Throws(d, bytes) && !e.life.closed && recvOk {
          ReadPostedKeepsLife(e);
        }
      }
    }
  }

  lemma ReadPostedKeepsLife(c: Conn)
    requires LifeInv(c.life)
    ensures LifeInv(ReadPosted(c, true).life)
  {
  }

  lemma StepKeeps(c: Conn, e: Event)
    requires Inv(c) && Enabled(c, e)
    ensures Inv(Step(c, e))
  {
    hide Drain, Completed, Called;
    match e
    case Completion(WriteDone(id, count), replies, ok) => WriteCompletionKeeps(c, id, count, replies, ok);
    case Completion(ReadDone(bytes), replies, ok) => ReadCompletionKeeps(c, bytes, replies, ok);
    case Calls(call) => CalledKeeps(c.life, call);
    case _ =>
  }

  // ---- Every run ----------------------------------------------------------------------

  lemma {:induction false} RunKeeps(c: Conn, es: seq<Event>)
    requires Inv(c) && IsRun(c, es)
    ensures Inv(Run(c, es))
    decreases |es|
  {
    hide Inv, Step, Enabled;
    if es != [] {
      StepKeeps(c, es[0]);
      RunKeeps(Step(c, es[0]), es[1..]);
    }
  }

  lemma StartedInv(recvOk: bool)
    ensures Inv(Started(recvOk)) && (Started(recvOk).life.closed <==> !recvOk)
  {
    EmptyWaits();
  }

  /** Safety over every run from the constructor on. */
  lemma EveryRunIsSafe(recvOk: bool, es: seq<Event>)
    requires IsRun(Started(recvOk), es)
    ensures Inv(Run(Started(recvOk), es))
  {
    StartedInv(recvOk);
    RunKeeps(Started(recvOk), es);
  }

  /** What no later event changes once the connection is closed. */
  ghost predicate Frozen(c: Conn, d: Conn) {
    && c.life.closed && d.life.closed && d.life.socketOpen == c.life.socketOpen
    && d.received == c.received && d.readBuffer == c.readBuffer
    && var t, u := c.life.trace, d.life.trace;
       && u.sent == t.sent && u.closeCalls == t.closeCalls && u.created == t.created
       && u.live == t.live && u.freed == t.freed
       && u.delivered == t.delivered && u.dispatched == t.dispatched
       && u.reading <= t.reading && u.pending <= t.pending
  }

  /** Closing is final: after the event that closes the connection no write and no read starts, the
      close callback does not run again, nothing more is dispatched and no buffer is freed. */
  lemma {:induction false} CloseIsFinal(c: Conn, es: seq<Event>)
    requires c.life.closed && IsRun(c, es)
    ensures Frozen(c, Run(c, es))
    decreases |es|
  {
    hide Drain;
    if es != [] {
      assert Frozen(c, Step(c, es[0]));
      CloseIsFinal(Step(c, es[0]), es[1..]);
    }
  }

  // ---- What closing leaves behind -----------------------------------------------------

  lemma OpenStepIsEven(c: Conn, e: Event)
    requires Inv(c) && !c.life.closed && Enabled(c, e)
    ensures Step(c, e).life.trace.live == Step(c, e).life.trace.pending
  {
    hide Drain, HandledAll, Called, NoDuplicates;
    match e
    case Calls(call) => CalledKeeps(c.life, call);
    case Completion(ReadDone(bytes), replies, ok) =>
      TakenKeeps(c.life, ReadDone(bytes));
      var d := c.(life := c.life.(trace := Taken(c.life.trace, ReadDone(bytes))));
      ClosedKeeps(d.life);
      if bytes != [] {
        ProcessedKeeps(d, bytes, replies);
        ClosedKeeps(Processed(d, bytes, replies).life);
      }
    case _ =>
  }

  /** Whichever event closes the connection and whatever follows it, the write buffers that are never
      deleted are exactly those whose send was outstanding when that event was over. */
  lemma BuffersLost(c: Conn, e: Event, es: seq<Event>)
    requires Inv(c) && !c.life.closed && Enabled(c, e)
    requires Step(c, e).life.closed && IsRun(Step(c, e), es)
    ensures var x, z := Step(c, e).life.trace, Run(Step(c, e), es).life.trace;
            && z.live == x.pending && z.created == x.created
            && forall id :: 0 <= id < z.created ==> (id in z.freed <==> id !in x.pending)
  {
    OpenStepIsEven(c, e);
    StepKeeps(c, e);
    CloseIsFinal(Step(c, e), es);
    hide Step, Enabled, Run, IsRun, NoDuplicates, ReadInv, StreamInv;
  }

  /** It happens: a send is accepted, the application closes, the send completes, and its buffer is
      neither freed nor will be. */
  lemma BufferCanBeLost()
    ensures var es := [Calls(SendText([], true)), Calls(UserClose(1000, [])), Completion(WriteDone(0, 2), [], true)];
            && IsRun(Started(true), es)
            && var t := Run(Started(true), es).life.trace;
               t.created == 1 && t.live == {0} && t.pending == {} && t.freed == []
  {
    hide CreatedFrame;
    var c := Started(true);
    var sent, close := Calls(SendText([], true)), Calls(UserClose(1000, []));
    var done := Completion(WriteDone(0, 2), [], true);
    var c1 := Step(c, sent);
    var c2 := Step(c1, close);
    assert c1.life.trace.pending == {0} && c2.life.closed;
    assert [sent, close, done][1..] == [close, done] && [close, done][1..] == [done] && [done][1..] == [];
    assert IsRun(c2, [done]) && Run(c2, [done]) == Step(c2, done);
    assert IsRun(c1, [close, done]) && Run(c1, [close, done]) == Step(c2, done);
  }

  /** A call that leaves the connection closed. */
  predicate CallShuts(call: Call) {
    call.UserClose? || !call.sendOk
  }

  /** A frame that leaves an open connection closed: a Close, a Ping whose Pong is refused, or a message
      whose callback throws, closes or has a send refused. */
  predicate Shuts(messageCb: bool, f: Dispatch, r: Reply) {
    || f.header.opcode == CLOSE
    || (f.header.opcode == PING && !r.sendOk)
    || (f.header.opcode in {TEXT, BINARY} && messageCb
        && (r.callbackThrows || exists call :: call in r.calls && CallShuts(call)))
  }

  function ReplyAt(replies: seq<Reply>, i: nat): Reply {
    if i < |replies| then replies[i] else DEFAULT_REPLY
  }

  lemma {:induction false} CallsShut(l: Life, calls: seq<Call>)
    requires LifeInv(l) && !l.closed
    ensures CalledAll(l, calls).closed <==> exists call :: call in calls && CallShuts(call)
    decreases |calls|
  {
    if calls != [] {
      var m := Called(l, calls[0]);
      hide CreatedFrame, Ledger;
      CalledKeeps(l, calls[0]);
      CalledAllKeeps(m, calls[1..]);
      assert m.closed <==> CallShuts(calls[0]);
      assert calls == [calls[0]] + calls[1..];
      if !m.closed {
        CallsShut(m, calls[1..]);
      }
    }
  }

  lemma FrameShuts(l: Life, f: Dispatch, r: Reply)
    requires LifeInv(l) && !l.closed && RightLength(f)
    ensures Handled(l, f, r).closed <==> Shuts(l.messageCb, f, r)
  {
    hide Decoded, PongFor, CalledAll, Ledger, CallShuts;
    if f.header.opcode in {TEXT, BINARY} && l.messageCb {
      var n := l.(trace := l.trace.(
        dispatched := l.trace.dispatched + [f], delivered := l.trace.delivered + [Decoded(f.header, f.payload)]));
      NotedKeeps(l, n.trace.dispatched, n.trace.delivered);
      CallsShut(n, r.calls);
    }
  }

  ghost predicate SomeShuts(messageCb: bool, frames: seq<Dispatch>, replies: seq<Reply>) {
    exists i :: 0 <= i < |frames| && Shuts(messageCb, frames[i], ReplyAt(replies, i))
  }

  lemma SomeShutsStep(messageCb: bool, frames: seq<Dispatch>, replies: seq<Reply>)
    requires frames != []
    ensures SomeShuts(messageCb, frames, replies)
            <==> Shuts(messageCb, frames[0], FirstReply(replies))
                 || SomeShuts(messageCb, frames[1..], LaterReplies(replies))
  {
    hide Shuts;
    var more, later := frames[1..], LaterReplies(replies);
    assert ReplyAt(replies, 0) == FirstReply(replies);
    assert forall i: nat :: ReplyAt(later, i) == ReplyAt(replies, i + 1);
    if SomeShuts(messageCb, more, later) {
      var i :| 0 <= i < |more| && Shuts(messageCb, more[i], ReplyAt(later, i));
      assert Shuts(messageCb, frames[i + 1], ReplyAt(replies, i + 1));
    }
    if SomeShuts(messageCb, frames, replies) && !Shuts(messageCb, frames[0], FirstReply(replies)) {
      var i :| 0 <= i < |frames| && Shuts(messageCb, frames[i], ReplyAt(replies, i));
      assert Shuts(messageCb, more[i - 1], ReplyAt(later, i - 1));
    }
  }

  /** An open connection is closed after handling some frames exactly if one of them shuts it. */
  lemma {:induction false} FramesShut(l: Life, frames: seq<Dispatch>, replies: seq<Reply>)
    requires LifeInv(l) && !l.closed && Sized(frames) && forall f :: f in frames ==> RightLength(f)
    ensures HandledAll(l, frames, replies).closed <==> SomeShuts(l.messageCb, frames, replies)
    decreases |frames|
  {
    hide Handled, LifeInv, RightLength, FirstReply, LaterReplies, Shuts, ReplyAt;
    if frames != [] {
      var r, m := FirstReply(replies), Handled(l, frames[0], FirstReply(replies));
      FrameShuts(l, frames[0], r);
      HandledKeeps(l, frames[0], r);
      HandledAllKeeps(m, frames[1..], LaterReplies(replies));
      SomeShutsStep(l.messageCb, frames, replies);
      hide SomeShuts;
      if !m.closed {
        FramesShut(m, frames[1..], LaterReplies(replies));
      }
    }
  }

  /** What the connection is like just before frame `j` is dispatched. */
  function Before(l: Life, frames: seq<Dispatch>, replies: seq<Reply>, j: nat): Life
    requires Sized(frames) && j <= |frames|
  {
    HandledAll(l, frames[..j], replies)
  }

  lemma {:induction false} BeforeStep(l: Life, frames: seq<Dispatch>, replies: seq<Reply>, j: nat)
    requires Sized(frames) && j < |frames|
    ensures Before(l, frames, replies, j + 1) == Handled(Before(l, frames, replies, j), frames[j], ReplyAt(replies, j))
    ensures Before(l, frames, replies, |frames|) == HandledAll(l, frames, replies)
    decreases j
  {
    hide Handled;
    assert frames[..|frames|] == frames;
    var r, more := FirstReply(replies), frames[1..];
    var m := Handled(l, frames[0], r);
    if j > 0 {
      BeforeStep(m, more, LaterReplies(replies), j - 1);
      assert frames[..j][1..] == more[..j - 1] && frames[..j + 1][1..] == more[..j];
    } else {
      var one := frames[..1];
      assert one[1..] == [] && one[0] == frames[0];
      assert HandledAll(l, one, replies) == HandledAll(m, one[1..], LaterReplies(replies)) == m;
      assert frames[..0] == [] && ReplyAt(replies, 0) == r;
    }
  }

  /** The frames one read completes. */
  function FramesOf(c: Conn, bytes: seq<Octet>): seq<Dispatch> {
    Drain(c.readBuffer + bytes).frames
  }

  /** The loop of `processData` does not stop when the connection is closed. A read on an open
      connection dispatches all its frames; frame `j` of them is dispatched, and its message handed to
      the callback, after closing exactly if some frame before it shuts the connection. So something
      is dispatched after closing exactly if some frame but the last one does. */
  lemma DispatchedAfterClosing(c: Conn, bytes: seq<Octet>, replies: seq<Reply>, recvOk: bool)
    requires Inv(c) && !c.life.closed && c.life.trace.reading > 0 && bytes != []
    ensures var frames := FramesOf(c, bytes);
            var l := c.life.(trace := Taken(c.life.trace, ReadDone(bytes)));
            var z := Completed(c, ReadDone(bytes), replies, recvOk).life.trace;
            && Sized(frames)
            && z.dispatched == c.life.trace.dispatched + frames
            && z.delivered == c.life.trace.delivered + (if c.life.messageCb then MessagesOf(frames) else [])
            && (forall j :: 0 <= j <= |frames| ==>
                  (Before(l, frames, replies, j).closed <==> SomeShuts(c.life.messageCb, frames[..j], replies)))
            && ((exists j :: 0 <= j < |frames| && Before(l, frames, replies, j).closed)
                <==> frames != [] && SomeShuts(c.life.messageCb, frames[..|frames| - 1], replies))
  {
    var frames := FramesOf(c, bytes);
    var l := c.life.(trace := Taken(c.life.trace, ReadDone(bytes)));
    TakenKeeps(c.life, ReadDone(bytes));
    DrainedLengths(c.readBuffer + bytes);
    HandledAllKeeps(l, frames, replies);
    var d := c.(life := l);
    ClosedKeeps(Processed(d, bytes, replies).life);
    forall j | 0 <= j <= |frames|
      ensures Before(l, frames, replies, j).closed <==> SomeShuts(c.life.messageCb, frames[..j], replies)
    {
      assert forall f :: f in frames[..j] ==> f in frames;
      FramesShut(l, frames[..j], replies);
    }
    hide Drain, HandledAll, SomeShuts, LifeInv;
    forall j | 0 <= j < |frames| && SomeShuts(c.life.messageCb, frames[..j], replies)
      ensures SomeShuts(c.life.messageCb, frames[..|frames| - 1], replies)
    {
      MoreShut(c.life.messageCb, frames, replies, j, |frames| - 1);
    }
  }

  lemma MoreShut(messageCb: bool, frames: seq<Dispatch>, replies: seq<Reply>, j: nat, k: nat)
    requires j <= k <= |frames| && SomeShuts(messageCb, frames[..j], replies)
    ensures SomeShuts(messageCb, frames[..k], replies)
  {
    hide Shuts;
    var i :| 0 <= i < j && Shuts(messageCb, frames[..j][i], ReplyAt(replies, i));
    assert frames[..k][i] == frames[..j][i];
  }

  /** A read leaves the connection closed exactly if one of its frames shuts it, `parseHeader` throws
      after them, or the next read is refused; and then nothing is dispatched or delivered any more. */
  lemma ClosingRead(c: Conn, bytes: seq<Octet>, replies: seq<Reply>, recvOk: bool, es: seq<Event>)
    requires Inv(c) && !c.life.closed && c.life.trace.reading > 0 && bytes != []
    requires IsRun(Completed(c, ReadDone(bytes), replies, recvOk), es)
    ensures var frames, x := FramesOf(c, bytes), Completed(c, ReadDone(bytes), replies, recvOk);
            && (x.life.closed <==> SomeShuts(c.life.messageCb, frames, replies) || Throws(c, bytes) || !recvOk)
            && (x.life.closed ==>
                  Run(x, es).life.trace.dispatched == c.life.trace.dispatched + frames
                  && Run(x, es).life.trace.delivered == x.life.trace.delivered)
  {
    var frames, x := FramesOf(c, bytes), Completed(c, ReadDone(bytes), replies, recvOk);
    var l := c.life.(trace := Taken(c.life.trace, ReadDone(bytes)));
    DispatchedAfterClosing(c, bytes, replies, recvOk);
    TakenKeeps(c.life, ReadDone(bytes));
    DrainedLengths(c.readBuffer + bytes);
    HandledAllKeeps(l, frames, replies);
    FramesShut(l, frames, replies);
    if x.life.closed {
      CloseIsFinal(x, es);
    }
    hide Drain, HandledAll, SomeShuts, Ledger, Run, IsRun;
  }

  /** A Close frame and then the text "A". */
  function CloseThenText(): seq<Octet> {
    FrameOctets(CLOSE, [], false, 0) + FrameOctets(TEXT, [65], false, 0)
  }

  /** What happens when these arrive together on an open connection with nothing buffered. */
  lemma CloseThenTextRead(c: Conn, recvOk: bool)
    requires Inv(c) && !c.life.closed && c.life.trace.reading > 0 && c.life.messageCb && c.readBuffer == []
    ensures var frames := FramesOf(c, CloseThenText());
            var l := c.life.(trace := Taken(c.life.trace, ReadDone(CloseThenText())));
            var z := Completed(c, ReadDone(CloseThenText()), [], recvOk).life.trace;
            && |frames| == 2 && Sized(frames) && Before(l, frames, [], 1).closed
            && z.dispatched == c.life.trace.dispatched + frames && z.delivered == c.life.trace.delivered + [[65]]
  {
    var bytes := CloseThenText();
    TwoFrames();
    assert c.readBuffer + bytes == bytes;
    CloseShutsFirst(FramesOf(c, bytes));
    DispatchedAfterClosing(c, bytes, [], recvOk);
    hide Inv, Completed, Before, SomeShuts, MessagesOf, Drain, FrameOctets, Taken;
  }

  /** It happens: one read brings a Close and then a text frame, and the text frame is dispatched and
      its message delivered although the connection has been closed. */
  lemma TextAfterClose()
    ensures var install, read := SetMessageCallback(true), Completion(ReadDone(CloseThenText()), [], true);
            && IsRun(Started(true), [install, read])
            && var c, z := Step(Started(true), install), Run(Started(true), [install, read]);
               && |FramesOf(c, CloseThenText())| == 2 && Sized(FramesOf(c, CloseThenText()))
               && Before(c.life.(trace := Taken(c.life.trace, ReadDone(CloseThenText()))),
                         FramesOf(c, CloseThenText()), [], 1).closed
               && |z.life.trace.dispatched| == 2 && z.life.trace.delivered == [[65]]
  {
    var install, read := SetMessageCallback(true), Completion(ReadDone(CloseThenText()), [], true);
    var c := Step(Started(true), install);
    TwoFrames();
    StartedInv(true);
    StepKeeps(Started(true), install);
    assert c.life.trace.reading == 1 && c.requested == 8192 && !c.life.closed && c.life.messageCb;
    assert c.readBuffer == [] && c.life.trace.dispatched == [] && c.life.trace.delivered == [];
    hide Started, Inv, Completed, Before, FramesOf, CloseThenText, Drain, RequestSize, Taken;
    CloseThenTextRead(c, true);
    RunOfTwo(Started(true), install, read);
  }

  lemma CloseShutsFirst(frames: seq<Dispatch>)
    requires frames != [] && frames[0].header.opcode == CLOSE
    ensures SomeShuts(true, frames[..1], [])
  {
    assert Shuts(true, frames[..1][0], ReplyAt([], 0));
  }

  lemma RunOfTwo(c: Conn, a: Event, b: Event)
    requires Enabled(c, a) && Enabled(Step(c, a), b)
    ensures IsRun(c, [a, b]) && Run(c, [a, b]) == Step(Step(c, a), b)
  {
    hide Step, Enabled;
    var x, y := Step(c, a), Step(Step(c, a), b);
    assert [b][0] == b && [b][1..] == [];
    assert IsRun(y, []) && Run(y, []) == y;
    assert IsRun(x, [b]) && Run(x, [b]) == Run(y, [b][1..]) == y;
    assert [a, b][0] == a && [a, b][1..] == [b];
  }

  lemma TwoFrames()
    ensures |CloseThenText()| == 5
    ensures var frames := Drain(CloseThenText()).frames;
            |frames| == 2 && frames[0].header.opcode == CLOSE && MessagesOf(frames) == [[65]]
  {
    var close, text := Outgoing(CLOSE, [], false, 0), Outgoing(TEXT, [65], false, 0);
    CreatedSizes(close);
    CreatedSizes(text);
    EmptyWaits();
    DrainOne(text, []);
    DrainOne(close, text.Wire());
    assert text.Wire() + [] == text.Wire();
    hide Drain, Outgoing.Wire, FrameOctets;
    var a, b := close.Received(), text.Received();
    assert MessageOf(a) == [] && MessageOf(b) == [[65]];
    assert [a, b][1..] == [b] && [b][1..] == [];
    assert MessagesOf([b]) == MessageOf(b) + MessagesOf([]);
    assert MessagesOf([a, b]) == MessageOf(a) + MessagesOf([b]);
  }

  lemma CreatedSizes(m: Outgoing)
    requires m.Valid() && |m.payload| <= 125 && !m.masked
    ensures m.Wire() == FrameOctets(m.opcode, m.payload, false, m.key) && |m.Wire()| == 2 + |m.payload|
  {
  }

  // ---- What the peer reads ------------------------------------------------------------

  /** The octets a send writes are read by the same codec as one final unmasked frame with the
      opcode asked for and the message given. */
  lemma WrittenFrameIsRead(opcode: Octet, message: Message)
    requires ValidOpcode(opcode) && |message| <= MAX_FRAME_SIZE
    ensures Drain(FrameOctets(opcode, message, false, 0))
            == Drained([Dispatch(FrameHeader(true, opcode, false, |message|, 0), message)], [], false, None)
  {
    var m := Outgoing(opcode, message, false, 0);
    FrontOfWire(m, []);
    assert m.Wire() + [] == m.Wire();
    assert m.Wire()[|m.Wire()|..] == [];
    EmptyWaits();
    hide FrontOf, Outgoing.Wire;
  }

  /** A Ping on an open connection is answered by exactly one frame, which the peer reads as a Pong
      carrying the Ping's own payload. */
  lemma PingIsAnswered(l: Life, f: Dispatch, r: Reply)
    requires LifeInv(l) && !l.closed && RightLength(f) && f.header.opcode == 0x9
    ensures var m := Handled(l, f, r);
            && |m.trace.sent| == |l.trace.sent| + 1 && l.trace.sent <= m.trace.sent
            && var d := Drain(m.trace.sent[|l.trace.sent|]);
               && d.rest == [] && !d.failed && |d.frames| == 1
               && d.frames[0].header.opcode == 0xA && d.frames[0].payload == Decoded(f.header, f.payload)
  {
    WrittenFrameIsRead(PONG, Decoded(f.header, f.payload));
    hide Drain, Decoded, FrameOctets, Ledger;
  }

  /** `sendText`, `sendBinary` and `sendPong` on an open connection write one frame, whose completion
      is then outstanding unless it was refused, which closes. The peer reads it
      as the message with the right opcode, unless the message is over the limit that the sender never
      checks: then the peer's decoder throws. */
  lemma SendIsRead(l: Life, call: Call)
    requires LifeInv(l) && !l.closed && !call.UserClose?
    ensures var t, u := l.trace, Called(l, call).trace;
            && |u.sent| == |t.sent| + 1 && t.sent <= u.sent
            && u.pending == t.pending + (if call.sendOk then {t.created} else {})
            && (Called(l, call).closed <==> !call.sendOk)
            && var opcode := if call.SendText? then 0x1 else if call.SendBinary? then 0x2 else 0xA;
               var header := FrameHeader(true, opcode, false, |call.message|, 0);
               var d := Drain(u.sent[|t.sent|]);
               if |call.message| <= MAX_FRAME_SIZE then d == Drained([Dispatch(header, call.message)], [], false, None)
               else d.failed && d.frames == []
  {
    CallWrites(l, call);
    var frame := CreatedFrame(call);
    assert frame == FrameOctets(SendOpcode(call), call.message, false, 0);
    hide CreatedFrame, Called;
    if |call.message| <= MAX_FRAME_SIZE {
      WrittenFrameIsRead(SendOpcode(call), call.message);
    } else {
      var m := Outgoing(SendOpcode(call), call.message, false, 0);
      DrainOne(m, []);
      assert m.Wire() + [] == m.Wire();
    }
    hide Drain, FrameOctets, LifeInv;
  }

  lemma CallWrites(l: Life, call: Call)
    requires LifeInv(l) && !l.closed && !call.UserClose?
    ensures var t, u := l.trace, Called(l, call).trace;
            && u.sent == t.sent + [CreatedFrame(call)]
            && u.pending == t.pending + (if call.sendOk then {t.created} else {})
            && (Called(l, call).closed <==> !call.sendOk)
  {
    hide CreatedFrame, Ledger;
  }

  const ECHO := Bytes("Echo: ")

  /** The message callback `Server` installs sends every message back with a prefix: a text or binary
      frame is answered by exactly one frame. The peer reads it as that text, exactly if it is
      still within the limit with its prefix. */
  lemma MessageIsEchoed(l: Life, f: Dispatch, sendOk: bool)
    requires LifeInv(l) && !l.closed && l.messageCb && RightLength(f) && f.header.opcode in {TEXT, BINARY}
    ensures var echo := ECHO + Decoded(f.header, f.payload);
            var m := Handled(l, f, Reply([SendText(echo, sendOk)], false, true));
            && |m.trace.sent| == |l.trace.sent| + 1 && l.trace.sent <= m.trace.sent
            && var d := Drain(m.trace.sent[|l.trace.sent|]);
               && d.failed == (|f.payload| + 6 > MAX_FRAME_SIZE)
               && (!d.failed ==> d.rest == [] && |d.frames| == 1
                                 && d.frames[0].header.opcode == TEXT && d.frames[0].payload == echo)
  {
    var message := Decoded(f.header, f.payload);
    var call := SendText(ECHO + message, sendOk);
    var n := l.(trace := l.trace.(dispatched := l.trace.dispatched + [f], delivered := l.trace.delivered + [message]));
    NotedKeeps(l, n.trace.dispatched, n.trace.delivered);
    SendIsRead(n, call);
    assert CalledAll(n, [call]) == CalledAll(Called(n, call), []) == Called(n, call);
    hide Drain, Decoded, Called, LifeInv;
  }

  // ---- Delivery -----------------------------------------------------------------------

  ghost predicate DeliversAll(c: Conn) {
    c.life.messageCb && c.life.trace.delivered == MessagesOf(c.life.trace.dispatched)
  }

  lemma DeliveryStep(c: Conn, e: Event)
    requires Inv(c) && DeliversAll(c) && Enabled(c, e) && e != SetMessageCallback(false)
    ensures DeliversAll(Step(c, e))
  {
    hide Drain, HandledAll, Called, MessagesOf, Decoded;
    match e
    case Completion(WriteDone(_, _), _, _) =>
    case Completion(ReadDone(bytes), replies, ok) =>
      DeliveryOfRead(c, bytes, replies, ok);
    case Calls(call) => CalledKeeps(c.life, call);
    case _ =>
  }

  lemma DeliveryOfRead(c: Conn, bytes: seq<Octet>, replies: seq<Reply>, recvOk: bool)
    requires Inv(c) && DeliversAll(c) && c.life.trace.reading > 0
    ensures DeliversAll(Completed(c, ReadDone(bytes), replies, recvOk))
  {
    hide HandledAll, MessagesOf, Decoded, FrontOf, Ledger;
    TakenKeeps(c.life, ReadDone(bytes));
    var d := c.(life := c.life.(trace := Taken(c.life.trace, ReadDone(bytes))));
    if !c.life.closed && bytes != [] {
      ProcessedKeeps(d, bytes, replies);
      DrainAppend(c.received, bytes);
      MessagesAppend(Drain(c.received).frames, Drain(c.readBuffer + bytes).frames);
    }
  }

  /** A run that starts with everything delivered goes on delivering everything. */
  lemma {:induction false} KeepsDelivering(c: Conn, es: seq<Event>)
    requires Inv(c) && DeliversAll(c) && IsRun(c, es) && SetMessageCallback(false) !in es
    ensures var d := Run(c, es);
            d.life.trace.delivered == MessagesOf(Drain(d.received).frames)
    decreases |es|
  {
    hide Step, Enabled, Drain, LifeInv, ReadInv;
    if es != [] {
      StepKeeps(c, es[0]);
      DeliveryStep(c, es[0]);
      assert forall e :: e in es[1..] ==> e in es;
      KeepsDelivering(Step(c, es[0]), es[1..]);
    }
  }

  /** With a message callback installed, every run hands it exactly the text and binary messages of
      the octets received, in order and once each, however the octets were split into reads and
      whatever else happened in between. */
  lemma RunDelivers(recvOk: bool, es: seq<Event>)
    requires IsRun(Started(recvOk), [SetMessageCallback(true)] + es) && SetMessageCallback(false) !in es
    ensures var d := Run(Started(recvOk), [SetMessageCallback(true)] + es);
            d.life.trace.delivered == MessagesOf(Drain(d.received).frames)
  {
    var all := [SetMessageCallback(true)] + es;
    var c := Started(recvOk);
    StartedInv(recvOk);
    StepKeeps(c, all[0]);
    assert all[1..] == es;
    KeepsDelivering(Step(c, all[0]), es);
  }

  function PayloadOf(m: Outgoing): seq<Message> {
    if m.opcode == TEXT || m.opcode == BINARY then [m.payload] else []
  }

  function PayloadsOf(msgs: seq<Outgoing>): seq<Message> {
    if msgs == [] then [] else PayloadOf(msgs[0]) + PayloadsOf(msgs[1..])
  }

  lemma {:induction false} MessagesOfReceived(msgs: seq<Outgoing>)
    ensures MessagesOf(ReceivedAll(msgs)) == PayloadsOf(msgs)
  {
    if msgs != [] {
      MessagesOfReceived(msgs[1..]);
      ReceivedStep(msgs[0], msgs[1..]);
      assert msgs == [msgs[0]] + msgs[1..];
      ReceivedDecodes(msgs[0]);
    }
  }

  /** A peer that writes `msgs` with `createFrame` is heard: however much of what it wrote has been
      received and whatever else has happened, the message callback has been given the payloads of
      the text and binary messages among those received in full, up to the first one over the limit,
      and nothing else. */
  lemma ConversationDelivered(recvOk: bool, es: seq<Event>, msgs: seq<Outgoing>) returns (k: nat)
    requires AllValid(msgs)
    requires IsRun(Started(recvOk), [SetMessageCallback(true)] + es) && SetMessageCallback(false) !in es
    requires Run(Started(recvOk), [SetMessageCallback(true)] + es).received <= WireAll(msgs)
    ensures var c := Run(Started(recvOk), [SetMessageCallback(true)] + es);
            && HoldsWhole(msgs, c.received, k)
            && c.life.trace.delivered == PayloadsOf(msgs[..k])
  {
    RunDelivers(recvOk, es);
    k := DrainPrefix(msgs, Run(Started(recvOk), [SetMessageCallback(true)] + es).received);
    MessagesOfReceived(msgs[..k]);
    hide HoldsWhole, PayloadsOf;
  }

  /** Once everything before the first oversize message has been received, all of it has been
      delivered; without an oversize message that is the whole conversation. */
  lemma WholeConversation(recvOk: bool, es: seq<Event>, msgs: seq<Outgoing>)
    requires AllValid(msgs) && AllValid(BeforeOversize(msgs))
    requires IsRun(Started(recvOk), [SetMessageCallback(true)] + es) && SetMessageCallback(false) !in es
    requires var got := Run(Started(recvOk), [SetMessageCallback(true)] + es).received;
             WireAll(BeforeOversize(msgs)) <= got <= WireAll(msgs)
    ensures Run(Started(recvOk), [SetMessageCallback(true)] + es).life.trace.delivered
            == PayloadsOf(BeforeOversize(msgs))
  {
    var k := ConversationDelivered(recvOk, es, msgs);
    KeptIsPrefix(msgs);
    assert msgs[..|BeforeOversize(msgs)|] == BeforeOversize(msgs);
    hide Run, IsRun, Started, PayloadsOf, WireAll;
  }
}

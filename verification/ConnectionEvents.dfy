/** What each single event does to an open `WebSocketConnection`: what it writes, and whether it
    closes the connection. */
module ConnectionEvents {
  import opened Octets
  import opened Frame
  import opened Stream
  import opened Connection
  import opened ConnectionLaws

  // ---- Completions --------------------------------------------------------------------

  /** The completion of a write frees its buffer. It closes the connection exactly if it carries no
      octets, and otherwise changes nothing else. */
  lemma WriteCompletion(c: Conn, id: nat, count: nat, replies: seq<Reply>, recvOk: bool)
    requires Inv(c) && !c.life.closed && id in c.life.trace.pending
    ensures var x, t := Completed(c, WriteDone(id, count), replies, recvOk), c.life.trace;
            && (x.life.closed <==> count == 0)
            && x.life.trace.live == t.live - {id} && x.life.trace.pending == t.pending - {id}
            && x.life.trace.freed == t.freed + [id]
            && (count > 0 ==>
                  x == c.(life := c.life.(trace := t.(
                    live := t.live - {id}, pending := t.pending - {id}, freed := t.freed + [id]))))
  {
  }

  /** A read that completes without octets closes the connection, and hands nothing on. */
  lemma EmptyRead(c: Conn, replies: seq<Reply>, recvOk: bool)
    requires Inv(c) && !c.life.closed && c.life.trace.reading > 0
    ensures var x := Completed(c, ReadDone([]), replies, recvOk);
            && x.life.closed && x.received == c.received && x.readBuffer == c.readBuffer
            && x.life.trace.dispatched == c.life.trace.dispatched && x.life.trace.sent == c.life.trace.sent
            && x.life.trace.delivered == c.life.trace.delivered
  {
    hide Drain;
  }

  // ---- When a connection closes -------------------------------------------------------

  /** What closes an open connection: a closing call, a refused send or read, a completion of either
      kind without octets, a frame that shuts it, or a frame over the limit. */
  ghost predicate Closes(c: Conn, e: Event) {
    match e
    case SetMessageCallback(_) => false
    case SetCloseCallback(_) => false
    case Calls(call) => CallShuts(call)
    case Completion(WriteDone(_, count), _, _) => count == 0
    case Completion(ReadDone(bytes), replies, recvOk) =>
      || bytes == []
      || SomeShuts(c.life.messageCb, FramesOf(c, bytes), replies)
      || Throws(c, bytes)
      || !recvOk
  }

  lemma StepCloses(c: Conn, e: Event)
    requires Inv(c) && !c.life.closed && Enabled(c, e)
    ensures Step(c, e).life.closed <==> Closes(c, e)
  {
    match e
    case Calls(call) =>
      hide CreatedFrame, StreamInv, ReadInv, Ledger;
    case Completion(WriteDone(id, count), replies, ok) => WriteCompletion(c, id, count, replies, ok);
    case Completion(ReadDone(bytes), replies, ok) =>
      if bytes == [] {
        EmptyRead(c, replies, ok);
      } else {
        ClosingRead(c, bytes, replies, ok, []);
      }
      hide Completed, SomeShuts, Inv, Throws, FramesOf;
    case _ =>
  }

  /** Some event of the run closes the connection. */
  ghost predicate SomeCloses(c: Conn, es: seq<Event>)
    requires IsRun(c, es)
    decreases |es|
  {
    es != [] && (Closes(c, es[0]) || SomeCloses(Step(c, es[0]), es[1..]))
  }

  /** An open connection is closed after a run exactly if some event of the run closes it. */
  lemma {:induction false} RunCloses(c: Conn, es: seq<Event>)
    requires Inv(c) && !c.life.closed && IsRun(c, es)
    ensures Run(c, es).life.closed <==> SomeCloses(c, es)
    decreases |es|
  {
    hide Inv, Step, Enabled, Closes;
    if es != [] {
      var x := Step(c, es[0]);
      StepCloses(c, es[0]);
      StepKeeps(c, es[0]);
      if x.life.closed {
        CloseIsFinal(x, es[1..]);
      } else {
        RunCloses(x, es[1..]);
      }
    }
  }

  /** From the constructor on: closed exactly if its first read was refused or some event closes it. */
  lemma ConnectionCloses(recvOk: bool, es: seq<Event>)
    requires IsRun(Started(recvOk), es)
    ensures Run(Started(recvOk), es).life.closed <==> !recvOk || SomeCloses(Started(recvOk), es)
  {
    StartedInv(recvOk);
    hide Started, Inv, Closes;
    if recvOk {
      RunCloses(Started(recvOk), es);
    } else {
      CloseIsFinal(Started(recvOk), es);
    }
  }

  /** Whichever event closes the connection and whatever follows it, the close callback that was
      installed runs exactly once, and none runs otherwise. */
  lemma CloseCallbackRuns(c: Conn, e: Event, es: seq<Event>)
    requires Inv(c) && !c.life.closed && Enabled(c, e)
    requires Step(c, e).life.closed && IsRun(Step(c, e), es)
    ensures Run(Step(c, e), es).life.trace.closeCalls == if c.life.closeCb then 1 else 0
  {
    ClosingCallsBack(c, e);
    CloseIsFinal(Step(c, e), es);
    hide Step, Enabled, Run, IsRun, Inv;
  }

  lemma ClosingCallsBack(c: Conn, e: Event)
    requires Inv(c) && !c.life.closed && Enabled(c, e) && Step(c, e).life.closed
    ensures Step(c, e).life.trace.closeCalls == if c.life.closeCb then 1 else 0
  {
    hide Drain, HandledAll, Called, Ledger;
    match e
    case Calls(call) => CalledKeeps(c.life, call);
    case Completion(ReadDone(bytes), replies, ok) =>
      TakenKeeps(c.life, ReadDone(bytes));
      var d := c.(life := c.life.(trace := Taken(c.life.trace, ReadDone(bytes))));
      ClosedKeeps(d.life);
      if bytes != [] {
        ProcessedKeeps(d, bytes, replies);
        ClosedKeeps(Processed(d, bytes, replies).life);
      }
    case _ =>
  }

  // ---- What is written ----------------------------------------------------------------

  /** The frames that calls write: each send one, until a call closes the connection. */
  function CallFrames(calls: seq<Call>): seq<seq<Octet>> {
    if calls == [] || calls[0].UserClose? then []
    else [CreatedFrame(calls[0])] + if calls[0].sendOk then CallFrames(calls[1..]) else []
  }

  /** What one dispatched frame is answered with: a Ping with one Pong, a message with whatever its
      callback sends, anything else with nothing. */
  function Answers(messageCb: bool, f: Dispatch, r: Reply): seq<seq<Octet>>
    requires |f.payload| < TWO_TO_THE_64
  {
    if f.header.opcode == PING then [PongFor(Decoded(f.header, f.payload))]
    else if f.header.opcode in {TEXT, BINARY} && messageCb then CallFrames(r.calls)
    else []
  }

  /** The same for frames handled one after another: nothing is written once one has shut the connection. */
  ghost function AnswersTo(messageCb: bool, frames: seq<Dispatch>, replies: seq<Reply>): seq<seq<Octet>>
    requires Sized(frames)
    decreases |frames|
  {
    if frames == [] then []
    else Answers(messageCb, frames[0], FirstReply(replies))
         + if Shuts(messageCb, frames[0], FirstReply(replies)) then []
           else AnswersTo(messageCb, frames[1..], LaterReplies(replies))
  }

  lemma {:induction false} CallsWrite(l: Life, calls: seq<Call>)
    requires LifeInv(l) && !l.closed
    ensures CalledAll(l, calls).trace.sent == l.trace.sent + CallFrames(calls)
    decreases |calls|
  {
    hide CreatedFrame, LifeInv;
    if calls != [] {
      var m := Called(l, calls[0]);
      CalledKeeps(l, calls[0]);
      CalledAllKeeps(m, calls[1..]);
      CallShutsExactly(l, calls[0]);
      if !calls[0].UserClose? {
        CallWrites(l, calls[0]);
      }
      hide Called;
      if !m.closed {
        CallsWrite(m, calls[1..]);
      }
    }
  }

  lemma CallShutsExactly(l: Life, call: Call)
    requires LifeInv(l) && !l.closed
    ensures Called(l, call).closed <==> CallShuts(call)
    ensures call.UserClose? ==> Called(l, call).trace.sent == l.trace.sent
  {
    hide CreatedFrame, Ledger;
  }

  lemma FrameAnswered(l: Life, f: Dispatch, r: Reply)
    requires LifeInv(l) && !l.closed && RightLength(f)
    ensures Handled(l, f, r).trace.sent == l.trace.sent + Answers(l.messageCb, f, r)
  {
    hide Decoded, PongFor, CalledAll, Ledger, CallFrames;
    if f.header.opcode in {TEXT, BINARY} && l.messageCb {
      var n := l.(trace := l.trace.(
        dispatched := l.trace.dispatched + [f], delivered := l.trace.delivered + [Decoded(f.header, f.payload)]));
      NotedKeeps(l, n.trace.dispatched, n.trace.delivered);
      CallsWrite(n, r.calls);
      CalledAllKeeps(n, r.calls);
      ClosedKeeps(CalledAll(n, r.calls));
    }
  }

  /** Handling frames on an open connection writes exactly the answers to them. */
  lemma {:induction false} FramesAnswered(l: Life, frames: seq<Dispatch>, replies: seq<Reply>)
    requires LifeInv(l) && !l.closed && Sized(frames) && forall f :: f in frames ==> RightLength(f)
    ensures HandledAll(l, frames, replies).trace.sent == l.trace.sent + AnswersTo(l.messageCb, frames, replies)
    decreases |frames|
  {
    hide Handled, LifeInv, RightLength, FirstReply, LaterReplies, Shuts, Answers;
    if frames != [] {
      var r, m := FirstReply(replies), Handled(l, frames[0], FirstReply(replies));
      FrameShuts(l, frames[0], r);
      FrameAnswered(l, frames[0], r);
      HandledKeeps(l, frames[0], r);
      HandledAllKeeps(m, frames[1..], LaterReplies(replies));
      if !m.closed {
        FramesAnswered(m, frames[1..], LaterReplies(replies));
      }
    }
  }

  /** So a read writes exactly the answers to its frames. */
  lemma ReadAnswered(c: Conn, bytes: seq<Octet>, replies: seq<Reply>, recvOk: bool)
    requires Inv(c) && !c.life.closed && c.life.trace.reading > 0 && bytes != []
    ensures Sized(FramesOf(c, bytes))
    ensures Completed(c, ReadDone(bytes), replies, recvOk).life.trace.sent
            == c.life.trace.sent + AnswersTo(c.life.messageCb, FramesOf(c, bytes), replies)
  {
    var frames := FramesOf(c, bytes);
    var d := c.(life := c.life.(trace := Taken(c.life.trace, ReadDone(bytes))));
    TakenKeeps(c.life, ReadDone(bytes));
    DrainedLengths(c.readBuffer + bytes);
    FramesAnswered(d.life, frames, replies);
    HandledAllKeeps(d.life, frames, replies);
    ClosedKeeps(Processed(d, bytes, replies).life);
    hide Drain, HandledAll, AnswersTo, Ledger;
  }
}

/** `WebSocketConnection` of cool_server/websocket_connection.cpp: what each operation does to a
    connection's state, and what every run of operations and completions keeps. */
module Connection {
  import opened Octets
  import opened Frame
  import opened Stream

  /** What the operating system and the heap have seen so far. Write buffers are numbered in
      allocation order. */
  datatype Trace = Trace(
    reading: nat,            // reads posted whose completion has not been delivered
    created: nat,            // write buffers ever allocated
    live: set<nat>,          // write buffers not deleted
    pending: set<nat>,       // sends whose completion has not been delivered
    freed: seq<nat>,         // write buffers deleted, in order
    sent: seq<seq<Octet>>,   // contents passed to WSASend
    closeCalls: nat,         // calls of the close callback
    delivered: seq<Message>, // arguments of the message callback
    dispatched: seq<Dispatch>)

  datatype Life = Life(closed: bool, socketOpen: bool, messageCb: bool, closeCb: bool, trace: Trace)

  datatype Conn = Conn(
    life: Life, readBuffer: seq<Octet>, expected: nat, requested: nat,
    received: seq<Octet>)    // every octet passed to processData

  /** The longest a string of the source can be. */
  const MAX_STRING: nat := 0x7FFF_FFFF_FFFF_FFFF

  type String = m: Message | |m| <= MAX_STRING

  /** What the application can ask of a connection, from outside or from its message callback. */
  datatype Call =
    | SendText(message: String, sendOk: bool)
    | SendBinary(message: String, sendOk: bool)
    | SendPong(message: String, sendOk: bool)
    | UserClose(code: bv16, reason: String)

  /** What the outside decides while one frame is handled: what the message callback asks of the
      connection if it is run, whether it then throws, and whether a Pong is accepted. */
  datatype Reply = Reply(calls: seq<Call>, callbackThrows: bool, sendOk: bool)

  const DEFAULT_REPLY := Reply([], false, true)

  datatype Done = ReadDone(bytes: seq<Octet>) | WriteDone(id: nat, count: nat)

  datatype Event =
    | SetMessageCallback(present: bool)
    | SetCloseCallback(present: bool)
    | Calls(call: Call)
    | Completion(done: Done, replies: seq<Reply>, recvOk: bool)

  // ---- The operations -----------------------------------------------------------------

  /** What `close` comes to. It writes nothing, although it asks `asyncWrite` to. */
  function Closed(l: Life): Life {
    if l.closed || !l.socketOpen then l.(closed := true) else
      l.(closed := true, socketOpen := false,
         trace := l.trace.(closeCalls := l.trace.closeCalls + if l.closeCb then 1 else 0))
  }

  function Written(l: Life, data: seq<Octet>, sendOk: bool): Life {
    if l.closed || !l.socketOpen then l else
      var id := l.trace.created;
      var t := l.trace.(created := id + 1, sent := l.trace.sent + [data]);
      if sendOk then l.(trace := t.(live := t.live + {id}, pending := t.pending + {id}))
      else Closed(l.(trace := t.(freed := t.freed + [id])))
  }

  function SendOpcode(call: Call): Octet
    requires !call.UserClose?
  {
    if call.SendText? then TEXT else if call.SendBinary? then BINARY else PONG
  }

  function CreatedFrame(call: Call): seq<Octet>
    requires !call.UserClose?
  {
    FrameOctets(SendOpcode(call), call.message, false, 0)
  }

  function Called(l: Life, call: Call): Life {
    if call.UserClose? then Closed(l) else Written(l, CreatedFrame(call), call.sendOk)
  }

  function CalledAll(l: Life, calls: seq<Call>): Life
    decreases |calls|
  {
    if calls == [] then l else CalledAll(Called(l, calls[0]), calls[1..])
  }

  /** The size of the buffer the next read asks for. */
  function RequestSize(expected: nat): nat {
    Min(Max(8192, expected + MAX_HEADER_SIZE), MAX_FRAME_SIZE)
  }

  function Min(a: nat, b: nat): nat { if a < b then a else b }

  function Max(a: nat, b: nat): nat { if a < b then b else a }

  function ReadPosted(c: Conn, recvOk: bool): Conn {
    if c.life.closed || !c.life.socketOpen then c else
      var d := c.(requested := RequestSize(c.expected));
      if recvOk then d.(life := d.life.(trace := d.life.trace.(reading := d.life.trace.reading + 1)))
      else d.(life := Closed(d.life))
  }

  function PongFor(message: Message): seq<Octet>
    requires |message| < TWO_TO_THE_64
  {
    FrameOctets(PONG, message, false, 0)
  }

  function Handled(l: Life, f: Dispatch, r: Reply): Life
    requires |f.payload| < TWO_TO_THE_64
  {
    var m := l.(trace := l.trace.(dispatched := l.trace.dispatched + [f]));
    if |f.payload| != f.header.payloadLength then Closed(m) else
      var message := Decoded(f.header, f.payload);
      if f.header.opcode == TEXT || f.header.opcode == BINARY then
        if !m.messageCb then m else
          var n := CalledAll(m.(trace := m.trace.(delivered := m.trace.delivered + [message])), r.calls);
          if r.callbackThrows then Closed(n) else n
      else if f.header.opcode == PING then Written(m, PongFor(message), r.sendOk)
      else if f.header.opcode == CLOSE then Closed(m)
      else m
  }

  predicate Sized(frames: seq<Dispatch>) {
    forall f :: f in frames ==> |f.payload| < TWO_TO_THE_64
  }

  function FirstReply(replies: seq<Reply>): Reply {
    if replies == [] then DEFAULT_REPLY else replies[0]
  }

  function LaterReplies(replies: seq<Reply>): seq<Reply> {
    if replies == [] then [] else replies[1..]
  }

  function HandledAll(l: Life, frames: seq<Dispatch>, replies: seq<Reply>): Life
    requires Sized(frames)
    decreases |frames|
  {
    if frames == [] then l
    else HandledAll(Handled(l, frames[0], FirstReply(replies)), frames[1..], LaterReplies(replies))
  }

  predicate RightLength(f: Dispatch) {
    |f.payload| == f.header.payloadLength <= MAX_FRAME_SIZE
  }

  lemma DrainedLengths(buf: seq<Octet>)
    ensures forall f :: f in Drain(buf).frames ==> RightLength(f)
    ensures Sized(Drain(buf).frames)
  {
    hide FrontOf;
    Conservation(buf);
    forall f | f in Drain(buf).frames ensures RightLength(f) {
      var i :| 0 <= i < |Drain(buf).frames| && Drain(buf).frames[i] == f;
      assert CutFrom(f, Erased(buf)[i]);
    }
  }

  /** What a round of the loop learns from `parseHeader` about the front of the buffer. */
  lemma FrontAfterParse(buf: seq<Octet>)
    ensures match HeaderSpec(buf)
            case NeedMore => FrontOf(buf) == Wait(None)
            case TooLarge => FrontOf(buf) == Throw
            case Parsed(h) =>
              && 2 <= HeaderSize(h) <= FrameSize(h)
              && (|buf| < FrameSize(h) ==> FrontOf(buf) == Wait(Some(h.payloadLength)))
              && (|buf| >= FrameSize(h) ==>
                FrontOf(buf) == Cut(Dispatch(h, buf[HeaderSize(h)..FrameSize(h)]), FrameSize(h)))
  {
  }

  /** `processData`: the frames of the drained buffer are handled in order, whatever handling them
      does to the connection. */
  function Processed(c: Conn, data: seq<Octet>, replies: seq<Reply>): Conn {
    var d := Drain(c.readBuffer + data);
    DrainedLengths(c.readBuffer + data);
    Conn(HandledAll(c.life, d.frames, replies), d.rest,
         if d.waiting.Some? then d.waiting.value else c.expected, c.requested, c.received + data)
  }

  predicate Throws(c: Conn, data: seq<Octet>) {
    Drain(c.readBuffer + data).failed
  }

  /** The system delivers a completion; it is no longer outstanding. */
  function Taken(t: Trace, done: Done): Trace {
    match done
    case ReadDone(_) => t.(reading := if t.reading > 0 then t.reading - 1 else 0)
    case WriteDone(id, _) => t.(pending := t.pending - {id})
  }

  function Completed(c: Conn, done: Done, replies: seq<Reply>, recvOk: bool): Conn {
    var l := c.life.(trace := Taken(c.life.trace, done));
    var d := c.(life := l);
    if l.closed then d else
      match done
      case WriteDone(id, bytes) =>
        var m := l.(trace := l.trace.(live := l.trace.live - {id}, freed := l.trace.freed + [id]));
        d.(life := if bytes == 0 then Closed(m) else m)
      case ReadDone(bytes) =>
        if bytes == [] then d.(life := Closed(l))
        else
          var e := Processed(d, bytes, replies);
          if Throws(d, bytes) then e.(life := Closed(e.life)) else ReadPosted(e, recvOk)
  }

  function Started(recvOk: bool): Conn {
    ReadPosted(Conn(Life(false, true, false, false, Trace(0, 0, {}, {}, [], [], 0, [], [])), [], 0, 0, []), recvOk)
  }

  /** A completion arrives only for an operation that is outstanding, and a read fills at most the
      buffer it was given. */
  predicate Enabled(c: Conn, e: Event) {
    match e
    case Completion(ReadDone(bytes), _, _) => c.life.trace.reading > 0 && |bytes| <= c.requested
    case Completion(WriteDone(id, _), _, _) => id in c.life.trace.pending
    case _ => true
  }

  function Step(c: Conn, e: Event): Conn
    requires Enabled(c, e)
  {
    match e
    case SetMessageCallback(p) => c.(life := c.life.(messageCb := p))
    case SetCloseCallback(p) => c.(life := c.life.(closeCb := p))
    case Calls(call) => c.(life := Called(c.life, call))
    case Completion(done, replies, ok) => Completed(c, done, replies, ok)
  }

  predicate IsRun(c: Conn, es: seq<Event>)
    decreases |es|
  {
    es == [] || (Enabled(c, es[0]) && IsRun(Step(c, es[0]), es[1..]))
  }

  function Run(c: Conn, es: seq<Event>): Conn
    requires IsRun(c, es)
    decreases |es|
  {
    if es == [] then c else Run(Step(c, es[0]), es[1..])
  }

  /** A string literal as octets. */
  function Bytes(s: string): (r: Message)
    ensures |r| == |s|
  {
    seq(|s|, i requires 0 <= i < |s| => OctetOf(s[i] as nat % 256))
  }

  function CloseStatus(code: bv16): seq<Octet> {
    [(code >> 8) as Octet, (code & 0xFF) as Octet]
  }

  // ---- The object ---------------------------------------------------------------------

  class WebSocketConnection {
    var isClosed: bool
    var socketOpen: bool
    var messageCb: bool
    var closeCb: bool
    var readBuffer: seq<Octet>
    var expectedPayloadSize: nat
    var readRequest: nat
    ghost var trace: Trace
    ghost var received: seq<Octet>

    ghost function LifeNow(): Life
      reads this
    {
      Life(isClosed, socketOpen, messageCb, closeCb, trace)
    }

    ghost function State(): Conn
      reads this
    {
      Conn(LifeNow(), readBuffer, expectedPayloadSize, readRequest, received)
    }

    constructor (recvOk: bool)
      ensures State() == Started(recvOk)
    {
      isClosed, socketOpen, messageCb, closeCb := false, true, false, false;
      readBuffer, expectedPayloadSize, readRequest := [], 0, 0;
      trace, received := Trace(0, 0, {}, {}, [], [], 0, [], []), [];
      new;
      AsyncRead(recvOk);
    }

    method AsyncRead(recvOk: bool)
      modifies this
      ensures State() == ReadPosted(old(State()), recvOk)
    {
      if isClosed {
        return;
      }
      if !socketOpen {
        return;
      }
      readRequest := Min(Max(8192, expectedPayloadSize + MAX_HEADER_SIZE), MAX_FRAME_SIZE);
      if recvOk {
        trace := trace.(reading := trace.reading + 1);
      } else {
        Close(1006, Bytes("Read error"));
      }
    }

    method Close(code: bv16, reason: String)
      modifies this
      ensures State() == old(State()).(life := Closed(old(LifeNow())))
      decreases if isClosed then 0 else 1, 0
    {
      if isClosed {
        return;
      }
      isClosed := true;
      if !socketOpen {
        return;
      }
      var frame: Result<seq<Octet>>;
      if code != 1000 || reason != [] {
        frame := CreateFrame(CLOSE, CloseStatus(code) + reason, false, 0);
      } else {
        frame := CreateFrame(CLOSE, [], false, 0);
      }
      var sendOk: bool := *;
      AsyncWrite(frame.value, sendOk);
      socketOpen := false;
      if closeCb {
        trace := trace.(closeCalls := trace.closeCalls + 1);
      }
    }

    method AsyncWrite(data: seq<Octet>, sendOk: bool)
      modifies this
      ensures State() == old(State()).(life := Written(old(LifeNow()), data, sendOk))
      decreases if isClosed then 0 else 1, 1
    {
      if isClosed {
        return;
      }
      if !socketOpen {
        return;
      }
      ghost var id := trace.created;
      trace := trace.(created := id + 1, sent := trace.sent + [data]);
      if sendOk {
        trace := trace.(live := trace.live + {id}, pending := trace.pending + {id});
      } else {
        trace := trace.(freed := trace.freed + [id]);
        Close(1006, Bytes("Write error"));
      }
    }

    /** `sendText`, `sendBinary` and `sendPong`: wrap the message in one unmasked frame and write it. */
    method Send(call: Call)
      requires !call.UserClose?
      modifies this
      ensures State() == old(State()).(life := Called(old(LifeNow()), call))
    {
      var frame := CreateFrame(SendOpcode(call), call.message, false, 0);
      AsyncWrite(frame.value, call.sendOk);
    }

    /** What the application's message callback does to the connection. */
    method Callback(calls: seq<Call>)
      modifies this
      ensures State() == old(State()).(life := CalledAll(old(LifeNow()), calls))
    {
      for i := 0 to |calls|
        invariant CalledAll(LifeNow(), calls[i..]) == CalledAll(old(LifeNow()), calls)
        invariant State() == old(State()).(life := LifeNow())
      {
        if calls[i].UserClose? {
          Close(calls[i].code, calls[i].reason);
        } else {
          Send(calls[i]);
        }
        assert calls[i..][1..] == calls[i + 1..];
      }
    }

    method HandleFrame(header: FrameHeader, payload: Message, reply: Reply)
      requires |payload| < TWO_TO_THE_64
      modifies this
      ensures State() == old(State()).(life := Handled(old(LifeNow()), Dispatch(header, payload), reply))
    {
      trace := trace.(dispatched := trace.dispatched + [Dispatch(header, payload)]);
      var decoded := DecodePayload(header, payload);
      if decoded.Err? {
        Close(1002, Bytes("Protocol error"));
        return;
      }
      var message := decoded.value;
      if header.opcode == TEXT || header.opcode == BINARY {
        if messageCb {
          trace := trace.(delivered := trace.delivered + [message]);
          Callback(reply.calls);
          if reply.callbackThrows {
            Close(1002, Bytes("Protocol error"));
          }
        }
      } else if header.opcode == PING {
        var frame := CreateFrame(PONG, message, false, 0);
        AsyncWrite(frame.value, reply.sendOk);
      } else if header.opcode == CLOSE {
        Close(1000, Bytes("Normal closure"));
      }
    }

    method ProcessData(data: seq<Octet>, replies: seq<Reply>) returns (threw: bool)
      modifies this
      ensures State() == Processed(old(State()), data, replies)
      ensures threw == Throws(old(State()), data)
    {
      hide FrontOf, HeaderSpec, HeaderSize, Handled;
      readBuffer := readBuffer + data;
      received := received + data;
      var todo := replies;
      ghost var start := LifeNow();
      ghost var whole := Drain(readBuffer);
      DrainedLengths(readBuffer);
      while true
        invariant Sized(whole.frames) && Sized(Drain(readBuffer).frames)
        invariant HandledAll(LifeNow(), Drain(readBuffer).frames, todo) == HandledAll(start, whole.frames, replies)
        invariant Drain(readBuffer) == whole.(frames := Drain(readBuffer).frames)
        invariant expectedPayloadSize == old(expectedPayloadSize) && readRequest == old(readRequest)
        invariant received == old(received) + data
        decreases |readBuffer|
      {
        var parsed := ParseHeader(readBuffer);
        FrontAfterParse(readBuffer);
        if parsed.NeedMore? {
          return false;
        }
        if parsed.TooLarge? {
          return true;
        }
        var header := parsed.header;
        var frameSize := HeaderSize(header) + header.payloadLength;
        if |readBuffer| < frameSize {
          expectedPayloadSize := header.payloadLength;
          return false;
        }
        var payload := readBuffer[HeaderSize(header)..frameSize];
        assert Drain(readBuffer).frames == [Dispatch(header, payload)] + Drain(readBuffer[frameSize..]).frames;
        assert Dispatch(header, payload) in Drain(readBuffer).frames;
        readBuffer := readBuffer[frameSize..];
        DrainedLengths(readBuffer);
        HandleFrame(header, payload, FirstReply(todo));
        todo := LaterReplies(todo);
      }
    }

    method HandleIOCompletion(done: Done, replies: seq<Reply>, recvOk: bool)
      modifies this
      ensures State() == Completed(old(State()), done, replies, recvOk)
    {
      trace := Taken(trace, done);
      if isClosed {
        return;
      }
      match done
      case WriteDone(id, bytes) =>
        trace := trace.(live := trace.live - {id}, freed := trace.freed + [id]);
        if bytes == 0 {
          Close(1005, Bytes("Connection closed"));
        }
      case ReadDone(bytes) =>
        if bytes == [] {
          Close(1005, Bytes("Connection closed"));
          return;
        }
        var threw := ProcessData(bytes, replies);
        if threw {
          Close(1002, Bytes("Protocol error"));
        } else {
          AsyncRead(recvOk);
        }
    }
  }
}

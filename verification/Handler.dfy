/** The one-shot decoder `RFC6455Handler::handleData` of cool_server/handler.cpp, and how it compares
    with the streaming decoder. */
module Handler {
  import opened Octets
  import opened Frame
  import opened Stream
  import opened Connection

  /** Calls made on the `Connection` interface. */
  datatype Effect = CloseWith(code: nat) | Pong(message: Message) | InstallMessageCallback | InstallErrorCallback

  const PROTOCOL_ERROR := [InstallErrorCallback, CloseWith(1002)]

  function OpcodeEffects(opcode: Octet, message: Message): seq<Effect> {
    if opcode == TEXT then [InstallMessageCallback]
    else if opcode == BINARY then []
    else if opcode == CLOSE then [CloseWith(1000)]
    else if opcode == PING then [Pong(message)]
    else if opcode == PONG then []
    else PROTOCOL_ERROR
  }

  function OneShot(data: seq<Octet>, maxFrameSize: nat): seq<Effect> {
    match FrontOf(data)
    case Wait(None) => PROTOCOL_ERROR
    case Throw => PROTOCOL_ERROR
    case Wait(Some(n)) => if n > maxFrameSize then [CloseWith(1009)] else PROTOCOL_ERROR
    case Cut(f, _) =>
      if f.header.payloadLength > maxFrameSize then [CloseWith(1009)]
      else OpcodeEffects(f.header.opcode, Decoded(f.header, f.payload))
  }

  /** The message `handleData` decodes, if it gets as far as its switch on the opcode. */
  function OneShotMessage(data: seq<Octet>, maxFrameSize: nat): Option<Message> {
    match FrontOf(data)
    case Cut(f, _) => if f.header.payloadLength > maxFrameSize then None else Some(Decoded(f.header, f.payload))
    case _ => None
  }

  class RFC6455Handler {
    const maxFrameSize: nat

    constructor (limit: nat)
      ensures maxFrameSize == if limit <= 16777216 then limit else 16777216
    {
      maxFrameSize := Min(limit, MAX_FRAME_SIZE);
    }

    /** The calls made on the connection, and the local `message`. */
    method HandleData(connected: bool, data: seq<Octet>) returns (effects: seq<Effect>, message: Option<Message>)
      ensures effects == if connected then OneShot(data, maxFrameSize) else []
      ensures message == if connected then OneShotMessage(data, maxFrameSize) else None
    {
      if !connected {
        return [], None;
      }
      hide HeaderSpec, FrontOf, HeaderSize;
      FrontAfterParse(data);
      var parsed := ParseHeader(data);
      if !parsed.Parsed? {
        return PROTOCOL_ERROR, None;
      }
      var header := parsed.header;
      if header.payloadLength > maxFrameSize {
        return [CloseWith(1009)], None;
      }
      var headerSize := HeaderSize(header);
      if |data| < headerSize + header.payloadLength {
        return PROTOCOL_ERROR, None;
      }
      var payload := data[headerSize..headerSize + header.payloadLength];
      var decoded := DecodePayload(header, payload);
      if decoded.Err? {
        return PROTOCOL_ERROR, None;
      }
      message := Some(decoded.value);
      if header.opcode == TEXT {
        effects := [InstallMessageCallback];
      } else if header.opcode == BINARY {
        effects := [];
      } else if header.opcode == CLOSE {
        effects := [CloseWith(1000)];
      } else if header.opcode == PING {
        effects := [Pong(decoded.value)];
      } else if header.opcode == PONG {
        effects := [];
      } else {
        effects := PROTOCOL_ERROR;
      }
    }
  }

  predicate ClosesIn(effects: seq<Effect>) {
    exists i :: 0 <= i < |effects| && effects[i].CloseWith?
  }

  function PongsIn(effects: seq<Effect>): seq<seq<Octet>> {
    if effects == [] then []
    else (if effects[0].Pong? && |effects[0].message| < TWO_TO_THE_64 then [PongFor(effects[0].message)] else [])
         + PongsIn(effects[1..])
  }

  /** On a buffer that holds exactly one frame within the handler's limit, the streaming decoder
      dispatches that one frame and keeps nothing. Both decoders then read the same message: what the
      message callback is given of a text or binary frame is what the one-shot decoder has decoded,
      the Pong frames they answer with are the same, and they agree on closing for every opcode but
      the continuation and reserved ones, which only the one-shot decoder rejects. */
  lemma OneShotAgrees(data: seq<Octet>, f: Dispatch, maxFrameSize: nat, l: Life)
    requires FrontOf(data) == Cut(f, |data|) && f.header.payloadLength <= maxFrameSize
    requires !l.closed && l.socketOpen && |f.payload| < TWO_TO_THE_64
    ensures Drain(data).frames == [f] && Drain(data).rest == [] && !Drain(data).failed
    ensures var effects, message := OneShot(data, maxFrameSize), OneShotMessage(data, maxFrameSize);
            var m := Handled(l, f, DEFAULT_REPLY);
            && message.Some?
            && m.trace.delivered
               == l.trace.delivered + (if l.messageCb && f.header.opcode in {TEXT, BINARY} then [message.value] else [])
            && m.trace.sent == l.trace.sent + PongsIn(effects)
            && ((m.closed <==> ClosesIn(effects)) <==> f.header.opcode in {TEXT, BINARY, CLOSE, PING, PONG})
  {
    WholeBufferFrame(data, f);
    AnswerTo(l, f);
    OpcodesOfEffects(f.header.opcode, Decoded(f.header, f.payload));
    hide FrontOf, Drain, Decoded, PongFor, OpcodeEffects, ClosesIn, PongsIn, Handled;
  }

  /** What the streaming decoder delivers and sends and whether it closes, for a frame with its whole
      payload. */
  lemma AnswerTo(l: Life, f: Dispatch)
    requires !l.closed && l.socketOpen && |f.payload| == f.header.payloadLength < TWO_TO_THE_64
    ensures var m, message := Handled(l, f, DEFAULT_REPLY), Decoded(f.header, f.payload);
            && m.trace.delivered
               == l.trace.delivered + (if l.messageCb && f.header.opcode in {TEXT, BINARY} then [message] else [])
            && m.trace.sent == l.trace.sent + (if f.header.opcode == PING then [PongFor(message)] else [])
            && (m.closed <==> f.header.opcode == CLOSE)
  {
    hide Decoded, PongFor;
  }

  lemma WholeBufferFrame(data: seq<Octet>, f: Dispatch)
    requires FrontOf(data) == Cut(f, |data|)
    ensures Drain(data).frames == [f] && Drain(data).rest == [] && !Drain(data).failed
    ensures |f.payload| == f.header.payloadLength
  {
    EmptyWaits();
    assert data[|data|..] == [];
    FrontIsFrame(data);
    hide FrontOf;
  }

  lemma OpcodesOfEffects(opcode: Octet, message: Message)
    requires |message| < TWO_TO_THE_64
    ensures var effects := OpcodeEffects(opcode, message);
            && PongsIn(effects) == (if opcode == PING then [PongFor(message)] else [])
            && (ClosesIn(effects) <==> opcode !in {TEXT, BINARY, PING, PONG})
  {
    hide PongFor;
    var effects := OpcodeEffects(opcode, message);
    if opcode == PING {
      assert effects[1..] == [];
    } else if effects == PROTOCOL_ERROR {
      assert effects[1].CloseWith?;
      assert effects[1..][1..] == [];
    } else if effects != [] {
      assert effects[1..] == [];
      assert effects[0] == if opcode == TEXT then InstallMessageCallback else CloseWith(1000);
    }
  }

  /** Whatever follows a complete first frame in the same buffer is ignored, and a buffer without a
      complete first frame closes the connection where the streaming decoder would wait. */
  lemma OneShotReadsOneFrame(data: seq<Octet>, tail: seq<Octet>, maxFrameSize: nat)
    ensures FrontOf(data).Cut? ==> OneShot(data + tail, maxFrameSize) == OneShot(data, maxFrameSize)
    ensures FrontOf(data).Wait? ==>
              ClosesIn(OneShot(data, maxFrameSize)) && Drain(data).frames == [] && !Drain(data).failed
  {
    if FrontOf(data).Cut? {
      FrontStable(data, tail);
    }
    hide FrontOf;
    assert PROTOCOL_ERROR[1].CloseWith? && [CloseWith(1009)][0].CloseWith?;
  }

  /** Every call the one-shot decoder makes: a header over its own limit closes with 1009 whether or
      not the payload is there, anything it cannot read as a whole frame closes with 1002, and a whole
      frame is answered by its opcode. */
  lemma OneShotExactly(data: seq<Octet>, maxFrameSize: nat)
    ensures var effects, failed := OneShot(data, maxFrameSize), [InstallErrorCallback, CloseWith(1002)];
            match HeaderSpec(data)
            case NeedMore => effects == failed
            case TooLarge => effects == failed
            case Parsed(h) =>
              if h.payloadLength > maxFrameSize then effects == [CloseWith(1009)]
              else if |data| < FrameSize(h) then effects == failed
              else
                var message := Decoded(h, data[HeaderSize(h)..FrameSize(h)]);
                && OneShotMessage(data, maxFrameSize) == Some(message)
                && (h.opcode == 0x1 ==> effects == [InstallMessageCallback])
                && (h.opcode == 0x2 || h.opcode == 0xA ==> effects == [])
                && (h.opcode == 0x8 ==> effects == [CloseWith(1000)])
                && (h.opcode == 0x9 ==> effects == [Pong(message)])
                && (h.opcode !in {0x1, 0x2, 0x8, 0x9, 0xA} ==> effects == failed)
  {
    FrontAfterParse(data);
    hide FrontOf, HeaderSpec, HeaderSize, Decoded;
  }
}

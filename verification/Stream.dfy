/** What `WebSocketConnection::processData` does to its read buffer, as a function of the octets:
    it cuts complete frames off the front until it must wait or `parseHeader` throws. */
module Stream {
  import opened Octets
  import opened Frame
  import opened FrameLaws

  datatype Option<T> = None | Some(value: T)

  /** One call of `handleFrame`. */
  datatype Dispatch = Dispatch(header: FrameHeader, payload: Message)

  /** One round of the loop: wait (for a payload of known length, if the header is complete),
      throw, or cut off the first `size` octets as one frame. */
  datatype Front = Wait(waiting: Option<nat>) | Throw | Cut(frame: Dispatch, size: nat)

  function FrontOf(buf: seq<Octet>): (r: Front)
    ensures r.Cut? ==> 2 <= r.size <= |buf|
  {
    match HeaderSpec(buf)
    case NeedMore => Wait(None)
    case TooLarge => Throw
    case Parsed(h) =>
      if |buf| < FrameSize(h) then Wait(Some(h.payloadLength))
      else Cut(Dispatch(h, buf[HeaderSize(h)..FrameSize(h)]), FrameSize(h))
  }

  datatype Drained = Drained(frames: seq<Dispatch>, rest: seq<Octet>, failed: bool, waiting: Option<nat>)

  /** The whole loop: the frames dispatched, the octets kept, and whether it ended by the exception. */
  function Drain(buf: seq<Octet>): Drained
    decreases |buf|
  {
    match FrontOf(buf)
    case Wait(w) => Drained([], buf, false, w)
    case Throw => Drained([], buf, true, None)
    case Cut(f, n) =>
      var d := Drain(buf[n..]);
      d.(frames := [f] + d.frames)
  }

  /** A round of the loop cuts off exactly the frame section 5.2 of RFC 6455 puts on the wire when
      the sender encoded the length minimally, and a shorter piece of it otherwise. */
  lemma CutIsWireFrame(buf: seq<Octet>)
    requires FrontOf(buf).Cut?
    ensures FrontOf(buf).size == WireHeaderSize(buf) + WireLength(buf) <==> MinimalLength(buf)
    ensures FrontOf(buf).size <= WireHeaderSize(buf) + WireLength(buf)
    ensures MinimalLength(buf) ==>
              FrontOf(buf).frame.payload == buf[WireHeaderSize(buf)..WireHeaderSize(buf) + WireLength(buf)]
  {
    HeaderSizeExact(buf);
  }

  // ---- Chunk independence -------------------------------------------------------------

  lemma FrontStable(a: seq<Octet>, b: seq<Octet>)
    requires !FrontOf(a).Wait?
    ensures FrontOf(a + b) == FrontOf(a)
  {
    HeaderStable(a, b);
    hide HeaderSpec, HeaderSize;
    if FrontOf(a).Cut? {
      var h := HeaderSpec(a).header;
      SliceStable(a, b, HeaderSize(h), FrameSize(h));
    }
  }

  lemma SliceStable(a: seq<Octet>, b: seq<Octet>, i: nat, j: nat)
    requires i <= j <= |a|
    ensures (a + b)[i..j] == a[i..j]
  {
  }

  /** Draining a buffer and then draining what is left together with more octets is draining
      everything at once. */
  lemma {:induction false} DrainAppend(a: seq<Octet>, b: seq<Octet>)
    ensures var d := Drain(a);
            if d.failed then Drain(a + b) == d.(rest := d.rest + b)
            else Drain(a + b) == var e := Drain(d.rest + b); e.(frames := d.frames + e.frames)
    decreases |a|
  {
    hide FrontOf, Masked, FrameOctets;
    match FrontOf(a)
    case Wait(w) =>
      var e := Drain(a + b);
      assert [] + e.frames == e.frames;
    case Throw =>
      FrontStable(a, b);
    case Cut(f, n) =>
      FrontStable(a, b);
      DrainAppend(a[n..], b);
      assert (a + b)[n..] == a[n..] + b;
      var d := Drain(a[n..]);
      var e := Drain(d.rest + b);
      assert [f] + (d.frames + e.frames) == ([f] + d.frames) + e.frames;
  }

  lemma EmptyWaits()
    ensures FrontOf([]) == Wait(None)
    ensures Drain([]) == Drained([], [], false, None)
  {
  }

  function Flatten(chunks: seq<seq<Octet>>): seq<Octet> {
    if chunks == [] then [] else chunks[0] + Flatten(chunks[1..])
  }

  /** `processData` called on one chunk after another until it throws. */
  function FeedAll(rest: seq<Octet>, chunks: seq<seq<Octet>>): Drained
    decreases |chunks|
  {
    if chunks == [] then Drained([], rest, false, None) else
      var d := Drain(rest + chunks[0]);
      if d.failed then d else
        var e := FeedAll(d.rest, chunks[1..]);
        e.(frames := d.frames + e.frames)
  }

  /** However a stream is cut into chunks, the same frames are dispatched and the same octets are
      left over, or the same frames are dispatched and then `parseHeader` throws. */
  lemma {:induction false} ChunkIndependence(rest: seq<Octet>, chunks: seq<seq<Octet>>)
    requires FrontOf(rest).Wait?
    ensures var whole := Drain(rest + Flatten(chunks));
            var fed := FeedAll(rest, chunks);
            && fed.frames == whole.frames && fed.failed == whole.failed
            && (!fed.failed ==> fed.rest == whole.rest)
    decreases |chunks|
  {
    hide FrontOf, Masked, FrameOctets;
    if chunks == [] {
      assert rest + Flatten(chunks) == rest;
    } else {
      var d := Drain(rest + chunks[0]);
      var more := Flatten(chunks[1..]);
      assert rest + Flatten(chunks) == (rest + chunks[0]) + more;
      DrainAppend(rest + chunks[0], more);
      if !d.failed {
        RestWaits(rest + chunks[0]);
        ChunkIndependence(d.rest, chunks[1..]);
      }
    }
  }

  lemma TwoChunkings(left: seq<seq<Octet>>, right: seq<seq<Octet>>)
    requires Flatten(left) == Flatten(right)
    ensures var l, r := FeedAll([], left), FeedAll([], right);
            l.frames == r.frames && l.failed == r.failed && (!l.failed ==> l.rest == r.rest)
  {
    ChunkIndependence([], left);
    ChunkIndependence([], right);
  }

  // ---- Conservation and residue -------------------------------------------------------

  /** Without an exception the loop stops at a front that has no complete frame. */
  lemma {:induction false} RestWaits(buf: seq<Octet>)
    ensures var d := Drain(buf);
            && FrontOf(d.rest) == (if d.failed then Throw else Wait(d.waiting))
    decreases |buf|
  {
    hide FrontOf, Masked, FrameOctets;
    var front := FrontOf(buf);
    if front.Cut? {
      RestWaits(buf[front.size..]);
    }
  }

  /** What stays in the buffer is shorter than one largest frame and holds no complete one, and the
      size noted for the next read is that of the payload whose header is there, if one is. */
  lemma Residue(buf: seq<Octet>)
    requires !Drain(buf).failed
    ensures |Drain(buf).rest| < MAX_HEADER_SIZE + MAX_FRAME_SIZE
    ensures Drain(buf).waiting.Some? ==> Drain(buf).waiting.value <= MAX_FRAME_SIZE
    ensures match HeaderSpec(Drain(buf).rest)
            case NeedMore => Drain(buf).waiting == None
            case TooLarge => false
            case Parsed(h) => Drain(buf).waiting == Some(h.payloadLength) && |Drain(buf).rest| < FrameSize(h)
    ensures Drain(Drain(buf).rest) == Drained([], Drain(buf).rest, false, Drain(buf).waiting)
  {
    RestWaits(buf);
    var rest := Drain(buf).rest;
    if HeaderSpec(rest).NeedMore? {
      UndecidedIsShort(rest);
    } else {
      HeaderSizeExact(rest);
    }
  }

  /** The raw octets erased for each dispatched frame. */
  function Erased(buf: seq<Octet>): seq<seq<Octet>>
    decreases |buf|
  {
    var front := FrontOf(buf);
    if front.Cut? then [buf[..front.size]] + Erased(buf[front.size..]) else []
  }

  predicate CutFrom(f: Dispatch, raw: seq<Octet>) {
    && |f.payload| == f.header.payloadLength <= MAX_FRAME_SIZE
    && |raw| == FrameSize(f.header)
    && raw[HeaderSize(f.header)..] == f.payload
  }

  lemma FrontIsFrame(buf: seq<Octet>)
    requires FrontOf(buf).Cut?
    ensures CutFrom(FrontOf(buf).frame, buf[..FrontOf(buf).size])
  {
    HeaderSizeExact(buf);
  }

  /** No octet is lost, duplicated or reordered: the erased frames followed by the rest are the
      buffer, and each dispatched payload is the end of its erased frame and has the length its
      header announces, so the length check of `decodePayload` never fails here. */
  lemma {:induction false} Conservation(buf: seq<Octet>)
    ensures var d, raw := Drain(buf), Erased(buf);
            && buf == Flatten(raw) + d.rest
            && |raw| == |d.frames|
            && forall i :: 0 <= i < |raw| ==> CutFrom(d.frames[i], raw[i])
    decreases |buf|
  {
    hide FrontOf, CutFrom;
    var front := FrontOf(buf);
    if front.Cut? {
      var n := front.size;
      Conservation(buf[n..]);
      FrontIsFrame(buf);
      FlattenPrepend(buf[..n], Erased(buf[n..]), Drain(buf[n..]).rest);
      assert buf == buf[..n] + buf[n..];
      hide Flatten;
    }
  }

  lemma FlattenPrepend(piece: seq<Octet>, raw: seq<seq<Octet>>, rest: seq<Octet>)
    ensures Flatten([piece] + raw) + rest == piece + (Flatten(raw) + rest)
  {
    assert ([piece] + raw)[1..] == raw;
  }

  // ---- End to end ---------------------------------------------------------------------

  /** The arguments of one `createFrame` call; `key` is the mask it draws. */
  datatype Outgoing = Outgoing(opcode: Octet, payload: Message, masked: bool, key: bv32) {
    predicate Valid() {
      ValidOpcode(opcode) && |payload| < TWO_TO_THE_64
    }

    predicate Within() {
      |payload| <= MAX_FRAME_SIZE
    }

    function Wire(): seq<Octet>
      requires Valid()
    {
      FrameOctets(opcode, payload, masked, key)
    }

    function Received(): Dispatch {
      Dispatch(CreatedHeader(opcode, payload, masked, key), if masked then Masked(payload, key) else payload)
    }

    /** What is received is final and has the opcode and, once unmasked, the payload that was sent. */
    predicate Recovered() {
      var d := Received();
      d.header.fin && d.header.opcode == opcode && Decoded(d.header, d.payload) == payload
    }
  }

  predicate AllValid(msgs: seq<Outgoing>) {
    forall m :: m in msgs ==> m.Valid()
  }

  function WireAll(msgs: seq<Outgoing>): seq<Octet>
    requires AllValid(msgs)
  {
    if msgs == [] then [] else msgs[0].Wire() + WireAll(msgs[1..])
  }

  /** The messages before the first one over the limit. */
  function BeforeOversize(msgs: seq<Outgoing>): seq<Outgoing> {
    if msgs == [] || !msgs[0].Within() then [] else [msgs[0]] + BeforeOversize(msgs[1..])
  }

  function ReceivedAll(msgs: seq<Outgoing>): (r: seq<Dispatch>)
    ensures |r| == |msgs|
  {
    seq(|msgs|, i requires 0 <= i < |msgs| => msgs[i].Received())
  }

  lemma FrontOfWire(m: Outgoing, tail: seq<Octet>)
    requires m.Valid()
    ensures FrontOf(m.Wire() + tail) == if m.Within() then Cut(m.Received(), |m.Wire()|) else Throw
  {
    HeaderRoundTrip(m.opcode, m.payload, m.masked, m.key, tail);
    CreatedSize(m.opcode, m.payload, m.masked, m.key);
    var f := m.Wire();
    var h := CreatedHeader(m.opcode, m.payload, m.masked, m.key);
    assert (f + tail)[HeaderSize(h)..FrameSize(h)] == f[HeaderSize(h)..];
  }

  lemma DrainOne(m: Outgoing, after: seq<Octet>)
    requires m.Valid()
    ensures var d := Drain(m.Wire() + after);
            if m.Within() then d == var e := Drain(after); e.(frames := [m.Received()] + e.frames)
            else d.frames == [] && d.failed
  {
    FrontOfWire(m, after);
    assert (m.Wire() + after)[|m.Wire()|..] == after;
    hide FrontOf, Outgoing.Wire, Outgoing.Received, Outgoing.Within;
  }

  lemma ReceivedStep(m: Outgoing, more: seq<Outgoing>)
    ensures ReceivedAll([m] + more) == [m.Received()] + ReceivedAll(more)
  {
  }

  lemma {:induction false} DrainWire(msgs: seq<Outgoing>, tail: seq<Octet>)
    requires AllValid(msgs)
    ensures var kept := BeforeOversize(msgs);
            var d := Drain(WireAll(msgs) + tail);
            if kept == msgs then d == var e := Drain(tail); e.(frames := ReceivedAll(msgs) + e.frames)
            else d.frames == ReceivedAll(kept) && d.failed
    decreases |msgs|
  {
    hide Drain, Outgoing.Wire, Outgoing.Received, Outgoing.Within, ReceivedAll;
    var buf := WireAll(msgs) + tail;
    if msgs == [] {
      assert buf == tail;
      var e := Drain(tail);
      assert ReceivedAll([]) + e.frames == e.frames;
    } else {
      var m, more := msgs[0], msgs[1..];
      var after := WireAll(more) + tail;
      assert buf == m.Wire() + after;
      DrainOne(m, after);
      assert msgs == [m] + more;
      if m.Within() {
        DrainWire(more, tail);
        ReceivedStep(m, BeforeOversize(more));
        if BeforeOversize(more) == more {
          var e := Drain(tail);
          assert ([m.Received()] + ReceivedAll(more)) + e.frames == [m.Received()] + (ReceivedAll(more) + e.frames);
        }
      }
    }
  }

  /** Frames written by `createFrame`, cut into chunks anywhere and fed to `processData`, come out
      as exactly the messages written, in order, with nothing left over. A message over the limit
      ends this: everything before it arrives and then `parseHeader` throws. */
  lemma EndToEnd(msgs: seq<Outgoing>, chunks: seq<seq<Octet>>)
    requires AllValid(msgs) && Flatten(chunks) == WireAll(msgs)
    ensures var fed := FeedAll([], chunks);
            var kept := BeforeOversize(msgs);
            && fed.frames == ReceivedAll(kept)
            && (fed.failed <==> exists m :: m in msgs && !m.Within())
            && (!fed.failed ==> kept == msgs && fed.rest == [])
            && forall i :: 0 <= i < |kept| ==>
                 && i < |msgs| && kept[i] == msgs[i]
                 && fed.frames[i] == msgs[i].Received() && msgs[i].Recovered()
  {
    hide FrontOf, Outgoing.Received, Outgoing.Within, FeedAll, Drain, WireAll, Decoded;
    EmptyWaits();
    ChunkIndependence([], chunks);
    DrainWire(msgs, []);
    assert WireAll(msgs) + [] == WireAll(msgs) == [] + Flatten(chunks);
    assert ReceivedAll(msgs) + [] == ReceivedAll(msgs);
    KeptIsPrefix(msgs);
    forall i | 0 <= i < |BeforeOversize(msgs)| ensures msgs[i].Recovered() {
      ReceivedDecodes(msgs[i]);
    }
  }

  /** While the octets of `m` are still coming in, nothing is dispatched. */
  lemma PartOfOne(m: Outgoing, got: seq<Octet>)
    requires m.Valid() && got <= m.Wire() && (m.Within() ==> got != m.Wire())
    ensures Drain(got).frames == []
  {
    var missing := m.Wire()[|got|..];
    assert got + missing == m.Wire() == m.Wire() + [];
    FrontOfWire(m, []);
    hide Outgoing.Wire, Outgoing.Within, Outgoing.Received;
    if !FrontOf(got).Wait? {
      FrontStable(got, missing);
    }
  }

  /** `k` counts the messages before the first oversize one that `got` holds in full. */
  ghost predicate HoldsWhole(msgs: seq<Outgoing>, got: seq<Octet>, k: nat)
    requires AllValid(msgs)
  {
    && k <= |BeforeOversize(msgs)| <= |msgs|
    && forall j: nat :: j <= |BeforeOversize(msgs)| ==> (WireAll(msgs[..j]) <= got <==> j <= k)
  }

  lemma HoldsNone(msgs: seq<Outgoing>, got: seq<Octet>)
    requires AllValid(msgs) && (msgs != [] && msgs[0].Within() ==> !(msgs[0].Wire() <= got))
    ensures HoldsWhole(msgs, got, 0)
  {
    hide Outgoing.Wire, Outgoing.Within;
    KeptIsPrefix(msgs);
    forall j: nat | j <= |BeforeOversize(msgs)| ensures WireAll(msgs[..j]) <= got <==> j <= 0 {
      if j > 0 {
        assert msgs[..j][0] == msgs[0];
        assert msgs[0].Wire() <= WireAll(msgs[..j]);
      }
    }
  }

  lemma HoldsOneMore(msgs: seq<Outgoing>, after: seq<Octet>, k: nat)
    requires AllValid(msgs) && msgs != [] && msgs[0].Within() && HoldsWhole(msgs[1..], after, k)
    ensures HoldsWhole(msgs, msgs[0].Wire() + after, k + 1)
  {
    hide Outgoing.Wire, Outgoing.Within;
    var w, more := msgs[0].Wire(), msgs[1..];
    forall j: nat | j <= |BeforeOversize(msgs)| ensures WireAll(msgs[..j]) <= w + after <==> j <= k + 1 {
      if j > 0 {
        assert msgs[..j][0] == msgs[0] && msgs[..j][1..] == more[..j - 1];
        SamePrefix(w, WireAll(more[..j - 1]), after);
      }
    }
  }

  lemma SamePrefix(w: seq<Octet>, a: seq<Octet>, b: seq<Octet>)
    ensures w + a <= w + b <==> a <= b
  {
    if w + a <= w + b {
      assert a == (w + a)[|w|..] && b == (w + b)[|w|..];
    }
    if a <= b {
      assert b == a + b[|a|..];
      assert w + b == (w + a) + b[|a|..];
    }
  }

  /** Of a stream of written frames that has only come in up to some octet, exactly the messages
      that are there in full are dispatched, up to the first oversize one. */
  lemma {:induction false} DrainPrefix(msgs: seq<Outgoing>, got: seq<Octet>) returns (k: nat)
    requires AllValid(msgs) && got <= WireAll(msgs)
    ensures HoldsWhole(msgs, got, k) && k <= |msgs| && Drain(got).frames == ReceivedAll(msgs[..k])
    decreases |msgs|
  {
    hide Drain, Outgoing.Wire, Outgoing.Within, Outgoing.Received, ReceivedAll, HoldsWhole;
    k := 0;
    if msgs == [] {
      EmptyWaits();
      HoldsNone(msgs, got);
    } else {
      var m, more := msgs[0], msgs[1..];
      if |got| < |m.Wire()| {
        assert got <= m.Wire();
        PartOfOne(m, got);
        HoldsNone(msgs, got);
      } else {
        var after := got[|m.Wire()|..];
        assert got == m.Wire() + after && after <= WireAll(more);
        DrainOne(m, after);
        if m.Within() {
          var n := DrainPrefix(more, after);
          HoldsOneMore(msgs, after, n);
          ReceivedStep(m, more[..n]);
          k := n + 1;
          assert msgs[..k] == [m] + more[..n];
        } else {
          HoldsNone(msgs, got);
        }
      }
    }
  }

  lemma ReceivedDecodes(m: Outgoing)
    ensures m.Recovered()
  {
    MaskTwice(m.payload, m.key);
  }

  lemma {:induction false} KeptIsPrefix(msgs: seq<Outgoing>)
    ensures var kept := BeforeOversize(msgs);
            && |kept| <= |msgs| && kept == msgs[..|kept|]
            && (kept == msgs <==> forall m :: m in msgs ==> m.Within())
  {
    if msgs != [] && msgs[0].Within() {
      KeptIsPrefix(msgs[1..]);
      assert msgs == [msgs[0]] + msgs[1..];
    }
  }
}

/** What a caller of the codec relies on: round trips, prefix stability and exact header sizes. */
module FrameLaws {
  import opened Octets
  import opened Frame

  // ---- Round trip ---------------------------------------------------------------------

  function CreatedHeader(opcode: Octet, payload: Message, masked: bool, key: bv32): FrameHeader {
    FrameHeader(true, opcode, masked, |payload|, if masked then key else 0)
  }

  /** The length field of a header whose second octet and extended octets stand for `n`. */
  lemma LengthField(d: seq<Octet>, n: nat, masked: bool)
    requires |d| >= 2 + LengthSize(n)
    requires d[1] as nat == (if masked then 128 else 0) + LengthCode(n)
    requires LengthSize(n) > 0 ==> BigEndian(d[2..2 + LengthSize(n)]) == n
    ensures ExtendedOctets(d) == LengthSize(n) && MaskBit(d) == masked && WireLength(d) == n
  {
    CodeParts(d[1] as nat, masked, LengthCode(n));
    hide BigEndian, Digits;
  }

  lemma CodeParts(v: nat, masked: bool, code: nat)
    requires v == (if masked then 128 else 0) + code && code < 128
    ensures v % 128 == code && (v >= 128 <==> masked)
  {
  }

  lemma ExtendedDigits(n: nat)
    requires n < TWO_TO_THE_64
    ensures LengthSize(n) > 0 ==> BigEndian(Digits(n, LengthSize(n))) == n
  {
    Pow256Values();
    if LengthSize(n) > 0 {
      DigitsInverse(n, LengthSize(n));
    }
  }

  lemma CreatedLengthField(x: Octet, n: nat, masked: bool, rest: seq<Octet>)
    requires n < TWO_TO_THE_64
    ensures var d := [x] + LengthOctets(n, masked) + rest;
            && |d| >= 2 && |d| >= 2 + ExtendedOctets(d)
            && MaskBit(d) == masked && WireLength(d) == n
            && 2 + ExtendedOctets(d) == 1 + |LengthOctets(n, masked)|
  {
    var k := LengthSize(n);
    var d := [x] + LengthOctets(n, masked) + rest;
    assert d[1] == OctetOf((if masked then 128 else 0) + LengthCode(n));
    assert d[2..2 + k] == Digits(n, k);
    ExtendedDigits(n);
    LengthField(d, n, masked);
  }

  lemma FirstOctetOfCreated(opcode: Octet)
    requires ValidOpcode(opcode)
    ensures 128 + opcode as nat < 256
    ensures var b := OctetOf(128 + opcode as nat);
            b as nat >= 128 && OctetOf(b as nat % 16) == opcode
  {
    SmallOpcode(opcode);
    var n := opcode as nat;
    assert (128 + n) % 16 == n;
    SameOctet(OctetOf(n), opcode);
  }

  /** `parseHeader` on a `createFrame` result, whatever follows it in the buffer: the header that
      was asked for, unless the payload is over the limit the writer never checks. */
  lemma HeaderRoundTrip(opcode: Octet, payload: Message, masked: bool, key: bv32, tail: seq<Octet>)
    requires |payload| < TWO_TO_THE_64 && ValidOpcode(opcode)
    ensures HeaderSpec(FrameOctets(opcode, payload, masked, key) + tail)
            == if |payload| <= MAX_FRAME_SIZE then Parsed(CreatedHeader(opcode, payload, masked, key)) else TooLarge
  {
    var len := LengthOctets(|payload|, masked);
    var f := FrameOctets(opcode, payload, masked, key);
    var first := OctetOf(128 + opcode as nat);
    var rest := (if masked then KeyOctets(key) + Masked(payload, key) else payload) + tail;
    var d := f + tail;
    FirstOctetOfCreated(opcode);
    assert d == [first] + len + rest;
    CreatedLengthField(first, |payload|, masked, rest);
    if masked && |payload| <= MAX_FRAME_SIZE {
      var k := 1 + |len|;
      assert d[k..] == rest;
      assert d[k] == rest[0] && d[k + 1] == rest[1] && d[k + 2] == rest[2] && d[k + 3] == rest[3];
      KeyRoundTrip(key);
    }
  }

  lemma CreatedSize(opcode: Octet, payload: Message, masked: bool, key: bv32)
    requires |payload| < TWO_TO_THE_64 && ValidOpcode(opcode)
    ensures var f := FrameOctets(opcode, payload, masked, key);
            var h := CreatedHeader(opcode, payload, masked, key);
            && |f| == FrameSize(h)
            && f[HeaderSize(h)..] == if masked then Masked(payload, key) else payload
  {
  }

  /** `decodePayload` on the slice at `headerSize` gives the payload back. */
  lemma PayloadRoundTrip(opcode: Octet, payload: Message, masked: bool, key: bv32, tail: seq<Octet>)
    requires |payload| < TWO_TO_THE_64 && ValidOpcode(opcode)
    ensures var d := FrameOctets(opcode, payload, masked, key) + tail;
            var h := CreatedHeader(opcode, payload, masked, key);
            && FrameSize(h) <= |d| && d[FrameSize(h)..] == tail
            && Decoded(h, d[HeaderSize(h)..FrameSize(h)]) == payload
  {
    var f := FrameOctets(opcode, payload, masked, key);
    var h := CreatedHeader(opcode, payload, masked, key);
    CreatedSize(opcode, payload, masked, key);
    assert (f + tail)[HeaderSize(h)..FrameSize(h)] == f[HeaderSize(h)..];
    MaskTwice(payload, key);
  }

  // ---- Prefix stability ---------------------------------------------------------------

  /** Once `parseHeader` accepts or throws on a prefix, it does the same on every extension. */
  lemma HeaderStable(d: seq<Octet>, e: seq<Octet>)
    requires !HeaderSpec(d).NeedMore?
    ensures HeaderSpec(d + e) == HeaderSpec(d)
  {
    var x := ExtendedOctets(d);
    assert (d + e)[2..2 + x] == d[2..2 + x];
  }

  /** A header never needs more than 14 octets to be decided. */
  lemma UndecidedIsShort(d: seq<Octet>)
    requires HeaderSpec(d).NeedMore?
    ensures |d| < MAX_HEADER_SIZE
  {
  }

  // ---- headerSize ---------------------------------------------------------------------

  lemma WireLengthBound(d: seq<Octet>)
    requires |d| >= 2 && |d| >= 2 + ExtendedOctets(d)
    ensures ExtendedOctets(d) == 0 ==> WireLength(d) < 126
    ensures ExtendedOctets(d) == 2 ==> WireLength(d) <= 65535
  {
    Pow256Values();
    if ExtendedOctets(d) == 2 {
      BigEndianBound(d[2..4]);
    }
  }

  /** What `headerSize` recomputes never exceeds the header `parseHeader` has seen, and equals it
      exactly when the length was encoded minimally. */
  lemma HeaderSizeExact(d: seq<Octet>)
    requires HeaderSpec(d).Parsed?
    ensures 2 <= HeaderSize(HeaderSpec(d).header) <= WireHeaderSize(d) <= |d|
    ensures HeaderSize(HeaderSpec(d).header) == WireHeaderSize(d) <==> MinimalLength(d)
    ensures HeaderSpec(d).header.payloadLength <= MAX_FRAME_SIZE
  {
    WireLengthBound(d);
  }

  /** A non-minimal encoding is sliced in the wrong place: the text frame "A" with a 16-bit length
      is read as the one-octet payload 0, and two octets of it stay in the buffer. */
  lemma NonMinimalIsMisread()
    ensures var d: seq<Octet> := [0x81, 126, 0, 1, 65];
            && HeaderSpec(d) == Parsed(FrameHeader(true, TEXT, false, 1, 0))
            && WireHeaderSize(d) == 4 && HeaderSize(HeaderSpec(d).header) == 2
            && Decoded(HeaderSpec(d).header, d[2..3]) == [0]
  {
    var d: seq<Octet> := [0x81, 126, 0, 1, 65];
    assert d[2..4] == [0, 1];
    assert [0 as Octet, 1][..1] == [0];
    assert BigEndian([0 as Octet]) == 0 by {
      assert [0 as Octet][..0] == [];
    }
    assert (0x81 as Octet) as nat % 16 == 1;
  }

  // ---- On the wire --------------------------------------------------------------------

  /** The number in the eight octets from `k` on, most significant first. */
  function EightOctetsFrom(d: seq<Octet>, k: nat): nat
    requires k + 8 <= |d|
  {
    0x100_0000_0000_0000 * d[k] as nat + 0x1_0000_0000_0000 * d[k + 1] as nat
    + 0x100_0000_0000 * d[k + 2] as nat + 0x1_0000_0000 * d[k + 3] as nat
    + 0x100_0000 * d[k + 4] as nat + 0x1_0000 * d[k + 5] as nat + 0x100 * d[k + 6] as nat + d[k + 7] as nat
  }

  /** Two more octets after a number `x` make `y`. */
  predicate Follows(x: nat, a: Octet, b: Octet, y: nat) {
    y == 0x1_0000 * x + 0x100 * a as nat + b as nat
  }

  lemma TwoAtATime(d: seq<Octet>, v: nat, w: nat, x: nat, y: nat)
    requires |d| >= 10 && Follows(0, d[2], d[3], v)
    requires Follows(v, d[4], d[5], w) && Follows(w, d[6], d[7], x) && Follows(x, d[8], d[9], y)
    ensures y == EightOctetsFrom(d, 2)
  {
  }

  lemma TwoOctetValue(s: seq<Octet>)
    requires |s| == 2
    ensures BigEndian(s) == 256 * s[0] as nat + s[1] as nat
  {
    assert s[..1][..0] == [] && BigEndian(s[..1]) == s[0] as nat;
  }

  lemma AppendOctets(s: seq<Octet>, a: Octet, b: Octet)
    ensures BigEndian(s + [a, b]) == 0x1_0000 * BigEndian(s) + 0x100 * a as nat + b as nat
  {
    var t := s + [a, b];
    assert t[..|t| - 1] == s + [a] && (s + [a])[..|s|] == s;
  }

  lemma EightOctetValue(d: seq<Octet>)
    requires |d| >= 10
    ensures BigEndian(d[2..10]) == EightOctetsFrom(d, 2)
  {
    hide BigEndian, Follows, EightOctetsFrom;
    FirstTwoOctets(d);
    NextTwoOctets(d, 4);
    NextTwoOctets(d, 6);
    NextTwoOctets(d, 8);
    TwoAtATime(d, BigEndian(d[2..4]), BigEndian(d[2..6]), BigEndian(d[2..8]), BigEndian(d[2..10]));
  }

  lemma FirstTwoOctets(d: seq<Octet>)
    requires |d| >= 4
    ensures Follows(0, d[2], d[3], BigEndian(d[2..4]))
  {
    TwoOctetValue(d[2..4]);
    hide BigEndian;
  }

  lemma NextTwoOctets(d: seq<Octet>, k: nat)
    requires 2 <= k && k + 2 <= |d|
    ensures Follows(BigEndian(d[2..k]), d[k], d[k + 1], BigEndian(d[2..k + 2]))
  {
    AppendOctets(d[2..k], d[k], d[k + 1]);
    assert d[2..k + 2] == d[2..k] + [d[k], d[k + 1]];
    hide BigEndian;
  }

  /** What the bits of a header mean, read straight off the wire. */
  lemma HeaderOnWire(d: seq<Octet>)
    requires HeaderSpec(d).Parsed?
    ensures |d| >= 2
    ensures var h, code := HeaderSpec(d).header, (d[1] & 0x7F) as nat;
            && (h.fin <==> d[0] & 0x80 != 0) && h.opcode == d[0] & 0x0F && (h.masked <==> d[1] & 0x80 != 0)
            && (code < 126 ==> h.payloadLength == code)
            && (code == 126 ==> |d| >= 4 && h.payloadLength == 256 * d[2] as nat + d[3] as nat)
            && (code == 127 ==> |d| >= 10 && h.payloadLength == EightOctetsFrom(d, 2))
  {
    HighBit(d[0]);
    HighBit(d[1]);
    LowFour(d[0]);
    LowSeven(d[1]);
    if Len7(d) == 126 {
      TwoOctetValue(d[2..4]);
    } else if Len7(d) == 127 {
      EightOctetValue(d);
    }
    hide BigEndian, OctetOf, EightOctetsFrom, KeyOf;
  }

  /** When `parseHeader` waits and when it throws: it throws as soon as a length over 16 MiB is there,
      whether or not the mask key is. */
  lemma HeaderVerdict(d: seq<Octet>)
    ensures |d| < 2 ==> HeaderSpec(d) == NeedMore
    ensures |d| >= 2 ==>
              var code := (d[1] & 0x7F) as nat;
              var size := if code == 126 then 4 else if code == 127 then 10 else 2;
              if |d| < size then HeaderSpec(d) == NeedMore else
                var n := if code == 126 then 256 * d[2] as nat + d[3] as nat
                         else if code == 127 then EightOctetsFrom(d, 2) else code;
                && (HeaderSpec(d) == TooLarge <==> n > 16777216)
                && (HeaderSpec(d) == NeedMore <==> n <= 16777216 && d[1] & 0x80 != 0 && |d| < size + 4)
  {
    if |d| >= 2 {
      HighBit(d[1]);
      LowSeven(d[1]);
      if Len7(d) == 126 && |d| >= 4 {
        TwoOctetValue(d[2..4]);
      } else if Len7(d) == 127 && |d| >= 10 {
        EightOctetValue(d);
      }
    }
    hide BigEndian, OctetOf, EightOctetsFrom, KeyOf;
  }

  lemma KeyOnWire(d: seq<Octet>)
    requires HeaderSpec(d).Parsed? && HeaderSpec(d).header.masked
    ensures var k := WireHeaderSize(d) - 4;
            2 <= k && k + 4 <= |d| && KeyOctets(HeaderSpec(d).header.maskingKey) == d[k..k + 4]
  {
    var k := WireHeaderSize(d) - 4;
    KeyOctetsOfKey(d[k], d[k + 1], d[k + 2], d[k + 3]);
    assert d[k..k + 4] == [d[k], d[k + 1], d[k + 2], d[k + 3]];
    hide KeyOf, KeyOctets, WireLength, OctetOf;
  }

  /** Octet `i` of the message decoded from a masked frame is octet `i` of its payload XOR octet (i mod
      4) of the four key octets that end its header; an unmasked payload is the message. For a
      minimal length the payload starts right after the header. */
  lemma DecodedOnWire(d: seq<Octet>, i: nat)
    requires HeaderSpec(d).Parsed? && i < HeaderSpec(d).header.payloadLength && |d| >= FrameSize(HeaderSpec(d).header)
    ensures var h, key := HeaderSpec(d).header, WireHeaderSize(d) - 4;
            var message := Decoded(h, d[HeaderSize(h)..FrameSize(h)]);
            && key + 4 <= |d| && (h.masked ==> 2 <= key)
            && message[i] == if h.masked then d[HeaderSize(h) + i] ^ d[key + i % 4] else d[HeaderSize(h) + i]
    ensures MinimalLength(d) ==> HeaderSize(HeaderSpec(d).header) == WireHeaderSize(d)
  {
    HeaderSizeExact(d);
    var h, k := HeaderSpec(d).header, WireHeaderSize(d) - 4;
    hide HeaderSpec, WireHeaderSize, WireLength;
    if h.masked {
      KeyOnWire(d);
      MaskedAt(d[HeaderSize(h)..FrameSize(h)], h.maskingKey, i);
      SliceAt(d, k, i % 4);
    }
    hide HeaderSize, KeyOctets, Masked;
  }

  lemma MaskedAt(p: Message, key: bv32, i: nat)
    requires i < |p|
    ensures Masked(p, key)[i] == p[i] ^ KeyOctets(key)[i % 4]
  {
    hide KeyOctets;
  }

  lemma SliceAt(d: seq<Octet>, k: nat, j: nat)
    requires k + 4 <= |d| && j < 4
    ensures d[k..k + 4][j] == d[k + j]
  {
  }

  /** The frame `createFrame` writes, from its end backwards: octet `i` of the payload XOR octet (i mod
      4) of the four key octets before it, which are those of the mask. */
  lemma FrameOnWire(opcode: Octet, payload: Message, masked: bool, mask: bv32)
    requires |payload| < TWO_TO_THE_64 && ValidOpcode(opcode)
    ensures var f := FrameOctets(opcode, payload, masked, mask);
            var start := |f| - |payload|;
            && start >= (if masked then 6 else 2) && f[0] == 0x80 | opcode
            && (if masked then
                  && f[start - 4..start] == [Low32(mask >> 24), Low32(mask >> 16), Low32(mask >> 8), Low32(mask)]
                  && forall i :: 0 <= i < |payload| ==> f[start + i] == payload[i] ^ f[start - 4 + i % 4]
                else f[start..] == payload)
  {
    var f, key := FrameOctets(opcode, payload, masked, mask), KeyOctets(mask);
    SmallOpcode(opcode);
    SetHighBit(opcode);
    SameOctet(f[0], 0x80 | opcode);
    hide LengthOctets, OctetOf;
    if masked {
      var start := |f| - |payload|;
      assert f[start - 4..start] == key;
      assert forall j :: 0 <= j < 4 ==> f[start - 4 + j] == key[j];
      hide KeyOctets;
      assert f[start..] == Masked(payload, mask);
      assert forall i :: 0 <= i < |payload| ==> f[start + i] == f[start..][i];
    }
  }
}

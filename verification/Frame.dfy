/** The frame codec of cool_server/frame.cpp.

    The functions describe frames arithmetically, the way section 5.2 of RFC 6455 does; the
    methods are the codec's own shift, mask and loop code, proved equal to them. */
module Frame {
  import opened Octets

  const MAX_FRAME_SIZE: nat := 16 * 1024 * 1024
  const MAX_HEADER_SIZE: nat := 14

  const CONTINUATION: Octet := 0x0
  const TEXT: Octet := 0x1
  const BINARY: Octet := 0x2
  const CLOSE: Octet := 0x8
  const PING: Octet := 0x9
  const PONG: Octet := 0xA

  type Message = seq<Octet>

  /** `maskingKey` is 0 when `masked` is false; the codec leaves it unset there and never reads it. */
  datatype FrameHeader = FrameHeader(
    fin: bool, opcode: Octet, masked: bool, payloadLength: nat, maskingKey: bv32)

  /** `parseHeader` returns false, throws, or fills in a header. */
  datatype ParseResult = NeedMore | TooLarge | Parsed(header: FrameHeader)

  datatype Result<T> = Ok(value: T) | Err

  // ---- Masking ------------------------------------------------------------------------

  function KeyOctets(key: bv32): (s: seq<Octet>)
    ensures |s| == 4
  {
    [Low32(key >> 24), Low32(key >> 16), Low32(key >> 8), Low32(key)]
  }

  function KeyOf(b0: Octet, b1: Octet, b2: Octet, b3: Octet): bv32 {
    (b0 as bv32 << 24) | (b1 as bv32 << 16) | (b2 as bv32 << 8) | (b3 as bv32)
  }

  /** Section 5.3 of RFC 6455: octet i of the payload XOR octet (i mod 4) of the key. */
  function Masked(p: Message, key: bv32): (r: Message)
    ensures |r| == |p|
  {
    seq(|p|, i requires 0 <= i < |p| => p[i] ^ KeyOctets(key)[i % 4])
  }

  lemma KeyRoundTrip(key: bv32)
    ensures var s := KeyOctets(key); KeyOf(s[0], s[1], s[2], s[3]) == key
  {
  }

  lemma XorTwice(a: Octet, b: Octet)
    ensures (a ^ b) ^ b == a
  {
  }

  lemma MaskTwice(p: Message, key: bv32)
    ensures Masked(Masked(p, key), key) == p
  {
    forall i | 0 <= i < |p| ensures Masked(Masked(p, key), key)[i] == p[i] {
      XorTwice(p[i], KeyOctets(key)[i % 4]);
    }
  }

  /** The octet of a word that a shift by `n` bits brings to its end. */
  function ShiftedOctet(key: bv32, n: nat): Octet
    requires n <= 32
  {
    Low32(key >> n)
  }

  lemma ShiftAmounts(key: bv32)
    ensures ShiftedOctet(key, 24) == KeyOctets(key)[0] && ShiftedOctet(key, 16) == KeyOctets(key)[1]
    ensures ShiftedOctet(key, 8) == KeyOctets(key)[2] && ShiftedOctet(key, 0) == KeyOctets(key)[3]
  {
  }

  /** The shift the codec's loops use selects octet (i mod 4) of the key. */
  lemma ShiftSelectsKeyOctet(key: bv32, i: nat)
    ensures ShiftedOctet(key, 8 * (3 - i % 4)) == KeyOctets(key)[i % 4]
  {
    ShiftAmounts(key);
    hide ShiftedOctet, KeyOctets;
    assert i % 4 == 0 || i % 4 == 1 || i % 4 == 2 || i % 4 == 3;
  }

  /** Octet by octet, masking is XOR with the key shifted right by 24, 16, 8 and 0 bits in turn. */
  predicate IsMasked(r: Message, p: Message, key: bv32)
    requires |r| == |p|
  {
    forall i :: 0 <= i < |p| ==> r[i] == p[i] ^ ShiftedOctet(key, 8 * (3 - i % 4))
  }

  lemma MaskedIsMasked(p: Message, key: bv32)
    ensures IsMasked(Masked(p, key), p, key)
  {
    hide ShiftedOctet, KeyOctets;
    forall i | 0 <= i < |p| ensures Masked(p, key)[i] == p[i] ^ ShiftedOctet(key, 8 * (3 - i % 4)) {
      ShiftSelectsKeyOctet(key, i);
    }
  }

  lemma KeyOctetsOfKey(b0: Octet, b1: Octet, b2: Octet, b3: Octet)
    ensures KeyOctets(KeyOf(b0, b1, b2, b3)) == [b0, b1, b2, b3]
  {
  }

  // ---- Reading a header ---------------------------------------------------------------

  function Len7(data: seq<Octet>): nat
    requires |data| >= 2
  {
    data[1] as nat % 128
  }

  /** The number of extended length octets on the wire. */
  function ExtendedOctets(data: seq<Octet>): nat
    requires |data| >= 2
  {
    if Len7(data) == 126 then 2 else if Len7(data) == 127 then 8 else 0
  }

  predicate MaskBit(data: seq<Octet>)
    requires |data| >= 2
  {
    data[1] as nat >= 128
  }

  /** The header's length on the wire. */
  function WireHeaderSize(data: seq<Octet>): nat
    requires |data| >= 2
  {
    2 + ExtendedOctets(data) + if MaskBit(data) then 4 else 0
  }

  function WireLength(data: seq<Octet>): nat
    requires |data| >= 2 && |data| >= 2 + ExtendedOctets(data)
  {
    if ExtendedOctets(data) == 0 then Len7(data) else BigEndian(data[2..2 + ExtendedOctets(data)])
  }

  /** Section 5.2 of RFC 6455 demands the shortest length encoding; the codec does not check it. */
  predicate MinimalLength(data: seq<Octet>)
    requires |data| >= 2 && |data| >= 2 + ExtendedOctets(data)
  {
    && (ExtendedOctets(data) == 2 ==> WireLength(data) > 125)
    && (ExtendedOctets(data) == 8 ==> WireLength(data) > 65535)
  }

  function KeyAt(data: seq<Octet>, k: nat): bv32
    requires k + 4 <= |data|
  {
    KeyOf(data[k], data[k + 1], data[k + 2], data[k + 3])
  }

  function HeaderSpec(data: seq<Octet>): ParseResult {
    if |data| < 2 || |data| < 2 + ExtendedOctets(data) then NeedMore
    else if WireLength(data) > MAX_FRAME_SIZE then TooLarge
    else if |data| < WireHeaderSize(data) then NeedMore
    else Parsed(FrameHeader(
                  data[0] as nat >= 128, OctetOf(data[0] as nat % 16), MaskBit(data), WireLength(data),
                  if MaskBit(data) then KeyAt(data, 2 + ExtendedOctets(data)) else 0))
  }

  /** What `headerSize` recomputes from a header. */
  function HeaderSize(h: FrameHeader): nat {
    2
    + (if h.payloadLength >= 126 then (if h.payloadLength > 65535 then 8 else 2) else 0)
    + (if h.masked then 4 else 0)
  }

  function FrameSize(h: FrameHeader): nat {
    HeaderSize(h) + h.payloadLength
  }

  lemma HighBit(b: Octet)
    ensures b & 0x80 != 0 <==> b as nat >= 128
  {
  }

  lemma LowSeven(b: Octet)
    ensures (b & 0x7F) as nat == b as nat % 128
  {
  }

  lemma LowFourValue(b: Octet)
    ensures (b & 0x0F) as nat == b as nat % 16
  {
  }

  lemma LowFour(b: Octet)
    ensures OctetOf(b as nat % 16) == b & 0x0F
  {
    LowFourValue(b);
    SameOctet(OctetOf(b as nat % 16), b & 0x0F);
  }

  /** The eight-octet shift-and-or expression is the base-256 value of those octets. */
  method ReadLength64(data: seq<Octet>) returns (x: bv64)
    requires |data| >= 10
    ensures Number(x) == BigEndian(data[2..10])
  {
    x := Word64(data[2], data[3], data[4], data[5], data[6], data[7], data[8], data[9]);
    OctetsOfWord(data[2], data[3], data[4], data[5], data[6], data[7], data[8], data[9]);
    assert data[2..10] == [data[2], data[3], data[4], data[5], data[6], data[7], data[8], data[9]];
  }

  lemma ShortWord(g: Octet, h: Octet)
    ensures ((g as bv64) << 8) | (h as bv64) == Word64(0, 0, 0, 0, 0, 0, g, h)
    ensures h as bv64 == Word64(0, 0, 0, 0, 0, 0, 0, h)
  {
  }

  lemma ShortNumber(g: Octet, h: Octet)
    ensures Number(((g as bv64) << 8) | (h as bv64)) == BigEndian([g, h])
    ensures Number(h as bv64) == h as nat
  {
    ShortWord(g, h);
    OctetsOfWord(0, 0, 0, 0, 0, 0, g, h);
    OctetsOfWord(0, 0, 0, 0, 0, 0, 0, h);
    LeadingZeros(6, [g, h]);
    LeadingZeros(7, [h]);
    assert Zeros(6) + [g, h] == [0, 0, 0, 0, 0, 0, g, h];
    assert Zeros(7) + [h] == [0, 0, 0, 0, 0, 0, 0, h];
    assert [h][..0] == [];
  }

  method ReadLength16(data: seq<Octet>) returns (x: bv64)
    requires |data| >= 4
    ensures Number(x) == BigEndian(data[2..4])
  {
    x := ((data[2] as bv64) << 8) | (data[3] as bv64);
    ShortNumber(data[2], data[3]);
    assert data[2..4] == [data[2], data[3]];
  }

  method ReadFirstTwo(data: seq<Octet>) returns (fin: bool, opcode: Octet, masked: bool, lenByte: Octet)
    requires |data| >= 2
    ensures fin == (data[0] as nat >= 128) && opcode == OctetOf(data[0] as nat % 16)
    ensures masked == MaskBit(data) && lenByte as nat == Len7(data)
  {
    fin := data[0] & 0x80 != 0;
    opcode := data[0] & 0x0F;
    masked := data[1] & 0x80 != 0;
    lenByte := data[1] & 0x7F;
    HighBit(data[0]);
    HighBit(data[1]);
    LowFour(data[0]);
    LowSeven(data[1]);
  }

  method ReadLength7(lenByte: Octet) returns (x: bv64)
    ensures Number(x) == lenByte as nat
  {
    x := lenByte as bv64;
    ShortNumber(0, lenByte);
  }

  lemma OctetLiterals(b: Octet)
    ensures b == 126 <==> b as nat == 126
    ensures b == 127 <==> b as nat == 127
  {
  }

  method ParseHeader(data: seq<Octet>) returns (r: ParseResult)
    ensures r == HeaderSpec(data)
  {
    if |data| < 2 {
      return NeedMore;
    }
    var fin, opcode, masked, lenByte := ReadFirstTwo(data);
    var headerSize := 2;

    var payloadLength: bv64;
    OctetLiterals(lenByte);
    if lenByte == 126 {
      if |data| < 4 {
        return NeedMore;
      }
      payloadLength := ReadLength16(data);
      headerSize := headerSize + 2;
    } else if lenByte == 127 {
      if |data| < 10 {
        return NeedMore;
      }
      payloadLength := ReadLength64(data);
      headerSize := headerSize + 8;
    } else {
      payloadLength := ReadLength7(lenByte);
    }
    var length := Number(payloadLength);
    if length > MAX_FRAME_SIZE {
      return TooLarge;
    }

    var maskingKey: bv32 := 0;
    if masked {
      if |data| < headerSize + 4 {
        return NeedMore;
      }
      maskingKey := KeyOf(data[headerSize], data[headerSize + 1], data[headerSize + 2], data[headerSize + 3]);
      headerSize := headerSize + 4;
    }
    return Parsed(FrameHeader(fin, opcode, masked, length, maskingKey));
  }

  // ---- Writing a frame ----------------------------------------------------------------

  predicate ValidOpcode(opcode: Octet) {
    opcode in {CONTINUATION, TEXT, BINARY, CLOSE, PING, PONG}
  }

  function LengthCode(n: nat): (code: nat)
    ensures code < 128
  {
    if n <= 125 then n else if n <= 65535 then 126 else 127
  }

  function LengthSize(n: nat): nat {
    if n <= 125 then 0 else if n <= 65535 then 2 else 8
  }

  function LengthOctets(n: nat, masked: bool): seq<Octet>
    requires n < TWO_TO_THE_64
  {
    [OctetOf((if masked then 128 else 0) + LengthCode(n))] + Digits(n, LengthSize(n))
  }

  /** The octets of one final frame. */
  function FrameOctets(opcode: Octet, payload: Message, masked: bool, key: bv32): seq<Octet>
    requires |payload| < TWO_TO_THE_64 && ValidOpcode(opcode)
  {
    [OctetOf(128 + opcode as nat)] + LengthOctets(|payload|, masked)
    + if masked then KeyOctets(key) + Masked(payload, key) else payload
  }

  lemma SmallOpcode(opcode: Octet)
    requires ValidOpcode(opcode)
    ensures opcode as nat < 16
  {
  }

  lemma SetHighBit(b: Octet)
    requires b as nat < 128
    ensures (0x80 | b) as nat == 128 + b as nat
    ensures 0x00 | b == b
  {
  }

  method MaskAndLength(masked: bool, n: nat) returns (b: Octet)
    requires n < 128
    ensures b == OctetOf((if masked then 128 else 0) + n)
  {
    var maskBit: Octet := if masked then 0x80 else 0x00;
    var length := OctetOf(n);
    SetHighBit(length);
    b := maskBit | length;
    SameOctet(b, OctetOf((if masked then 128 else 0) + n));
  }

  method FinAndOpcode(opcode: Octet) returns (b: Octet)
    requires ValidOpcode(opcode)
    ensures 128 + opcode as nat < 256 && b == OctetOf(128 + opcode as nat)
  {
    SmallOpcode(opcode);
    SetHighBit(opcode);
    b := 0x80 | opcode;
    SameOctet(b, OctetOf(128 + opcode as nat));
  }

  method LengthBytes(n: nat, masked: bool) returns (r: seq<Octet>)
    requires n < TWO_TO_THE_64
    ensures r == LengthOctets(n, masked)
  {
    if n <= 125 {
      var b := MaskAndLength(masked, n);
      r := [b];
    } else if n <= 65535 {
      var b := MaskAndLength(masked, 126);
      var digits := TwoDigits(Size64(n));
      SizeValue(n);
      r := [b] + digits;
    } else {
      var b := MaskAndLength(masked, 127);
      var digits := EightDigits(Size64(n));
      SizeValue(n);
      r := [b] + digits;
    }
  }

  /** The two octets written for a 16-bit length. */
  method TwoDigits(size: bv64) returns (r: seq<Octet>)
    ensures r == Digits(size as nat, 2)
  {
    r := [Low64(size >> 8)];
    r := r + [Low64(size)];
    OctetsByShift(size);
    WordDigits(size);
    DigitsSuffix(size as nat, 8, 2);
  }

  /** The descending loop writes the base-256 digits of whatever 64-bit size it is given. */
  method EightDigits(size: bv64) returns (r: seq<Octet>)
    ensures r == Digits(size as nat, 8)
  {
    r := EightOctets(size);
    WordDigits(size);
  }

  method EightOctets(size: bv64) returns (r: seq<Octet>)
    ensures r == Octets64(size)
  {
    r := [];
    var i := 7;
    while i >= 0
      invariant -1 <= i <= 7
      invariant |r| == 7 - i && forall k :: 0 <= k < |r| ==> r[k] == OctetAt(size, 7 - k)
    {
      var octet := ShiftOut(size, i);
      r := r + [octet];
      i := i - 1;
    }
  }

  method ShiftOut(size: bv64, i: nat) returns (octet: Octet)
    requires i < 8
    ensures octet == OctetAt(size, i)
  {
    octet := Low64(size >> EightTimes(i));
    OctetsByShift(size);
  }

  method KeyBytes(mask: bv32) returns (r: seq<Octet>)
    ensures r == KeyOctets(mask)
  {
    r := [Low32(mask >> 24)];
    r := r + [Low32(mask >> 16)];
    r := r + [Low32(mask >> 8)];
    r := r + [Low32(mask)];
  }

  /** One round of the masking loops. */
  method MaskOctet(ghost p: Message, octet: Octet, mask: bv32, i: nat) returns (r: Octet)
    requires i < |p| && octet == p[i]
    ensures r == Masked(p, mask)[i]
  {
    ShiftSelectsKeyOctet(mask, i);
    hide ShiftedOctet, KeyOctets;
    r := octet ^ ShiftedOctet(mask, 8 * (3 - i % 4));
  }

  /** The loop that masks a copy of the payload in `createFrame` and again in `decodePayload`. */
  method MaskCopy(payload: Message, mask: bv32) returns (r: Message)
    ensures r == Masked(payload, mask) && IsMasked(r, payload, mask)
  {
    ghost var m := Masked(payload, mask);
    MaskedIsMasked(payload, mask);
    hide IsMasked, Masked;
    r := payload;
    for i := 0 to |r|
      invariant |r| == |payload|
      invariant forall k :: 0 <= k < |r| ==> r[k] == if k < i then m[k] else payload[k]
    {
      var octet := MaskOctet(payload, r[i], mask, i);
      r := r[i := octet];
    }
  }

  /** `mask` is the word the codec draws from its random generator. */
  method CreateFrame(opcode: Octet, payload: Message, masked: bool, mask: bv32) returns (r: Result<seq<Octet>>)
    requires |payload| < TWO_TO_THE_64
    ensures r == if ValidOpcode(opcode) then Ok(FrameOctets(opcode, payload, masked, mask)) else Err
    ensures r.Err? <==> opcode !in {0x0, 0x1, 0x2, 0x8, 0x9, 0xA}
  {
    if !ValidOpcode(opcode) {
      return Err;
    }
    var first := FinAndOpcode(opcode);
    var frame := [first];
    var length := LengthBytes(|payload|, masked);
    frame := frame + length;
    if masked {
      var keyBytes := KeyBytes(mask);
      frame := frame + keyBytes;
      var maskedPayload := MaskCopy(payload, mask);
      frame := frame + maskedPayload;
    } else {
      frame := frame + payload;
    }
    assert frame == FrameOctets(opcode, payload, masked, mask);
    return Ok(frame);
  }

  // ---- Decoding a payload -------------------------------------------------------------

  function Decoded(h: FrameHeader, payload: Message): (r: Message)
    ensures |r| == |payload|
  {
    if h.masked then Masked(payload, h.maskingKey) else payload
  }

  method DecodePayload(h: FrameHeader, payload: Message) returns (r: Result<Message>)
    ensures r == if |payload| == h.payloadLength then Ok(Decoded(h, payload)) else Err
  {
    if |payload| != h.payloadLength {
      return Err;
    }
    var decoded := payload;
    if h.masked {
      decoded := MaskCopy(payload, h.maskingKey);
    }
    return Ok(decoded);
  }

  method ApplyMask(key: bv32, data: array<Octet>, len: nat)
    requires len <= data.Length
    modifies data
    ensures data[..] == Masked(old(data[..len]), key) + old(data[len..])
    ensures IsMasked(data[..len], old(data[..len]), key)
  {
    ghost var p := data[..len];
    ghost var m := Masked(p, key);
    MaskedIsMasked(p, key);
    hide IsMasked, Masked;
    for i := 0 to len
      invariant forall k :: 0 <= k < data.Length ==> data[k] == if k < i then m[k] else old(data[k])
    {
      var octet := MaskOctet(p, data[i], key, i);
      data[i] := octet;
    }
    assert data[..len] == m;
  }
}

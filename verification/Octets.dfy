/** Octets, the base-256 reading of octet strings, and the bit-level facts that connect the
    shifts and masks of the frame codec with arithmetic. */
module Octets {

  type Octet = bv8

  const TWO_TO_THE_64: nat := 0x1_0000_0000_0000_0000

  /** The value of an octet string read in network byte order. */
  function BigEndian(s: seq<Octet>): nat {
    if s == [] then 0 else 256 * BigEndian(s[..|s| - 1]) + s[|s| - 1] as nat
  }

  /** The octet with value `n`. */
  function OctetOf(n: nat): (b: Octet)
    requires n < 256
    ensures b as nat == n
  {
    if n == 0 then 0 else
      var c := OctetOf(n - 1);
      NextOctet(c);
      c + 1
  }

  lemma NextOctet(b: Octet)
    requires b as nat < 255
    ensures (b + 1) as nat == b as nat + 1
  {
  }

  lemma SameOctet(a: Octet, b: Octet)
    requires a as nat == b as nat
    ensures a == b
  {
  }

  /** The last `k` base-256 digits of `n`, most significant first. */
  function Digits(n: nat, k: nat): (s: seq<Octet>)
    ensures |s| == k
  {
    if k == 0 then [] else Digits(n / 256, k - 1) + [OctetOf(n % 256)]
  }

  function Pow256(k: nat): nat {
    if k == 0 then 1 else 256 * Pow256(k - 1)
  }

  lemma {:induction false} DigitsInverse(n: nat, k: nat)
    requires n < Pow256(k)
    ensures BigEndian(Digits(n, k)) == n
  {
    if k > 0 {
      DigitsInverse(n / 256, k - 1);
      assert Digits(n, k)[..k - 1] == Digits(n / 256, k - 1);
    }
  }

  /** An octet string is the digits of its own value. */
  lemma {:induction false} DigitsOfValue(s: seq<Octet>)
    ensures Digits(BigEndian(s), |s|) == s
  {
    if s != [] {
      DigitsOfValue(s[..|s| - 1]);
      LastDigit(BigEndian(s[..|s| - 1]), s[|s| - 1]);
      hide OctetOf;
    }
  }

  lemma LastDigit(q: nat, b: Octet)
    ensures (256 * q + b as nat) / 256 == q && OctetOf((256 * q + b as nat) % 256) == b
  {
    hide OctetOf;
    DigitValue(q, b as nat);
    SameOctet(OctetOf(b as nat), b);
  }

  lemma DigitValue(q: nat, n: nat)
    requires n < 256
    ensures (256 * q + n) / 256 == q && (256 * q + n) % 256 == n
  {
  }

  /** An octet string is worth less than 256 to the power of its length. */
  lemma {:induction false} BigEndianBound(s: seq<Octet>)
    ensures BigEndian(s) < Pow256(|s|)
  {
    if s != [] {
      BigEndianBound(s[..|s| - 1]);
    }
  }

  /** The last `j` of `k` digits are the `j` digits. */
  lemma {:induction false} DigitsSuffix(n: nat, k: nat, j: nat)
    requires j <= k
    ensures Digits(n, k)[k - j..] == Digits(n, j)
  {
    if j > 0 {
      DigitsSuffix(n / 256, k - 1, j - 1);
    }
  }

  function Zeros(k: nat): (s: seq<Octet>)
    ensures |s| == k
  {
    seq(k, i => 0)
  }

  lemma {:induction false} LeadingZeros(k: nat, s: seq<Octet>)
    ensures BigEndian(Zeros(k) + s) == BigEndian(s)
    decreases k + |s|
  {
    var z := Zeros(k) + s;
    if s != [] {
      LeadingZeros(k, s[..|s| - 1]);
      assert z[..|z| - 1] == Zeros(k) + s[..|s| - 1];
    } else if k > 0 {
      LeadingZeros(k - 1, []);
      assert z[..k - 1] == Zeros(k - 1) + [];
    }
  }

  // ---- 64-bit words -------------------------------------------------------------------

  /** The `& 0xFF` that cuts a word down to its last octet. */
  function Low64(x: bv64): Octet {
    (x & 0xFF) as Octet
  }

  function Low32(x: bv32): Octet {
    (x & 0xFF) as Octet
  }

  /** The shift-and-or expression that builds a word from its octets, most significant first. */
  function Word64(a: Octet, b: Octet, c: Octet, d: Octet, e: Octet, f: Octet, g: Octet, h: Octet): bv64 {
    ((a as bv64) << 56) | ((b as bv64) << 48) | ((c as bv64) << 40) | ((d as bv64) << 32)
    | ((e as bv64) << 24) | ((f as bv64) << 16) | ((g as bv64) << 8) | (h as bv64)
  }

  /** `8 * i` as a shift amount. */
  function EightTimes(i: nat): (shift: bv64)
    requires i < 8
    ensures shift as nat == 8 * i
  {
    if i == 0 then 0 else if i == 1 then 8 else if i == 2 then 16 else if i == 3 then 24
    else if i == 4 then 32 else if i == 5 then 40 else if i == 6 then 48 else 56
  }

  /** Octet `i` of a word, counted from the least significant one. */
  function OctetAt(x: bv64, i: nat): Octet {
    if i == 0 then Low64(x) else OctetAt(x >> 8, i - 1)
  }

  /** One shift by `8 * i` reaches the same octet as `i` shifts by 8. */
  lemma OctetsByShift(x: bv64)
    ensures OctetAt(x, 0) == Low64(x)
    ensures OctetAt(x, 1) == Low64(x >> 8)
    ensures OctetAt(x, 2) == Low64(x >> 16)
    ensures OctetAt(x, 3) == Low64(x >> 24)
    ensures OctetAt(x, 4) == Low64(x >> 32)
    ensures OctetAt(x, 5) == Low64(x >> 40)
    ensures OctetAt(x, 6) == Low64(x >> 48)
    ensures OctetAt(x, 7) == Low64(x >> 56)
  {
    assert OctetAt(x >> 8, 1) == Low64(x >> 16);
    assert OctetAt(x >> 40, 2) == OctetAt(x >> 48, 1) == Low64(x >> 56);
    assert OctetAt(x >> 32, 2) == OctetAt(x >> 40, 1) == Low64(x >> 48);
    assert OctetAt(x >> 24, 2) == OctetAt(x >> 32, 1) == Low64(x >> 40);
    assert OctetAt(x >> 16, 2) == OctetAt(x >> 24, 1) == Low64(x >> 32);
    assert OctetAt(x >> 8, 2) == OctetAt(x >> 16, 1) == Low64(x >> 24);
    assert OctetAt(x >> 8, 6) == OctetAt(x >> 16, 5) == OctetAt(x >> 24, 4);
    assert OctetAt(x >> 24, 4) == OctetAt(x >> 32, 3) == OctetAt(x >> 40, 2);
    assert OctetAt(x >> 8, 5) == OctetAt(x >> 16, 4) == OctetAt(x >> 24, 3) == OctetAt(x >> 32, 2);
    assert OctetAt(x >> 8, 4) == OctetAt(x >> 16, 3) == OctetAt(x >> 24, 2);
    assert OctetAt(x >> 8, 3) == OctetAt(x >> 16, 2);
  }

  function Octets64(x: bv64): (s: seq<Octet>)
    ensures |s| == 8
  {
    [OctetAt(x, 7), OctetAt(x, 6), OctetAt(x, 5), OctetAt(x, 4),
     OctetAt(x, 3), OctetAt(x, 2), OctetAt(x, 1), OctetAt(x, 0)]
  }

  /** The number a 64-bit word stands for. */
  function Number(x: bv64): nat {
    BigEndian(Octets64(x))
  }

  /** No bit is lost or shifted onto another one. */
  lemma OctetsOfWord(a: Octet, b: Octet, c: Octet, d: Octet, e: Octet, f: Octet, g: Octet, h: Octet)
    ensures Octets64(Word64(a, b, c, d, e, f, g, h)) == [a, b, c, d, e, f, g, h]
  {
    OctetsByShift(Word64(a, b, c, d, e, f, g, h));
    LiteralShifts(a, b, c, d, e, f, g, h);
  }

  lemma LiteralShifts(a: Octet, b: Octet, c: Octet, d: Octet, e: Octet, f: Octet, g: Octet, h: Octet)
    ensures var x := Word64(a, b, c, d, e, f, g, h);
            && Low64(x >> 56) == a && Low64(x >> 48) == b && Low64(x >> 40) == c && Low64(x >> 32) == d
            && Low64(x >> 24) == e && Low64(x >> 16) == f && Low64(x >> 8) == g && Low64(x) == h
  {
  }

  /** The 64-bit `size_t` that holds `n`. */
  function Size64(n: nat): bv64 {
    var s := Digits(n, 8);
    Word64(s[0], s[1], s[2], s[3], s[4], s[5], s[6], s[7])
  }

  lemma OctetsOfSize(n: nat)
    ensures Octets64(Size64(n)) == Digits(n, 8)
  {
    var s := Digits(n, 8);
    OctetsOfWord(s[0], s[1], s[2], s[3], s[4], s[5], s[6], s[7]);
  }

  lemma Pow256Values()
    ensures Pow256(1) == 256 && Pow256(2) == 65536 && Pow256(8) == TWO_TO_THE_64
  {
    assert Pow256(2) == 256 * Pow256(1) && Pow256(3) == 256 * Pow256(2) && Pow256(4) == 256 * Pow256(3);
    assert Pow256(5) == 256 * Pow256(4) && Pow256(6) == 256 * Pow256(5) && Pow256(7) == 256 * Pow256(6);
  }

  lemma NumberOfSize(n: nat)
    requires n < TWO_TO_THE_64
    ensures Number(Size64(n)) == n
  {
    OctetsOfSize(n);
    Pow256Values();
    DigitsInverse(n, 8);
  }

  // ---- `Number` is the word's own integer value ---------------------------------------

  lemma ShiftOr(x: bv64, b: Octet)
    requires x <= 0x00FF_FFFF_FFFF_FFFF
    ensures ((x << 8) | (b as bv64)) as nat == (x as nat) * 256 + b as nat
  {
  }

  lemma SplitWord(x: bv64)
    ensures x >> 8 <= 0x00FF_FFFF_FFFF_FFFF
    ensures x == ((x >> 8) << 8) | (Low64(x) as bv64)
  {
  }

  lemma WordParts(x: bv64, h: bv64, b: Octet)
    requires h == x >> 8 && b == Low64(x)
    ensures x as nat == h as nat * 256 + b as nat
  {
    SplitWord(x);
    ShiftOr(h, b);
  }

  lemma WordBound(x: bv64)
    ensures x as nat < TWO_TO_THE_64
  {
  }

  function LastOctets(x: bv64, k: nat): (s: seq<Octet>)
    ensures |s| == k
  {
    if k == 0 then [] else LastOctets(x >> 8, k - 1) + [Low64(x)]
  }

  lemma {:induction false} LastOctetAt(x: bv64, k: nat, i: nat)
    requires i < k
    ensures LastOctets(x, k)[k - 1 - i] == OctetAt(x, i)
  {
    if i > 0 {
      LastOctetAt(x >> 8, k - 1, i - 1);
    }
  }

  lemma {:induction false} LastOctetsValue(x: bv64, v: nat, k: nat)
    requires v == x as nat < Pow256(k)
    ensures BigEndian(LastOctets(x, k)) == v
  {
    if k > 0 {
      var h, b := x >> 8, Low64(x);
      WordParts(x, h, b);
      LastOctetsValue(h, h as nat, k - 1);
      assert LastOctets(x, k)[..k - 1] == LastOctets(h, k - 1);
    }
  }

  /** The octets of a word, read in base 256, are its unsigned integer value. */
  lemma NumberIsValue(x: bv64)
    ensures Number(x) == x as nat
  {
    WordBound(x);
    Pow256Values();
    LastOctetsValue(x, x as nat, 8);
    forall i | 0 <= i < 8 ensures LastOctets(x, 8)[i] == Octets64(x)[i] {
      LastOctetAt(x, 8, 7 - i);
    }
    assert LastOctets(x, 8) == Octets64(x);
  }

  /** The octets of a word, most significant first, are the base-256 digits of its value. */
  lemma WordDigits(x: bv64)
    ensures Octets64(x) == Digits(x as nat, 8)
  {
    NumberIsValue(x);
    DigitsOfValue(Octets64(x));
  }

  /** The word that holds `n` has the value `n`. */
  lemma SizeValue(n: nat)
    requires n < TWO_TO_THE_64
    ensures Size64(n) as nat == n
  {
    NumberOfSize(n);
    NumberIsValue(Size64(n));
  }
}

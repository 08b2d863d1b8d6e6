/** The base64 codec of stored secrets (src/core/secrets/base64.ts), and the encoding
    of section 4 of RFC 4648 as a regrouping of bits.

    The 32-bit operations are written as arithmetic modulo 2 to the 32; BitOps says
    that the shifts and masks of the source are that arithmetic. */
module Base64 {
  import opened Text
  import opened Numbers

  const WORD := 0x1_0000_0000

  /** A to Z, a to z, 0 to 9, + and /. */
  function CharOf(s: nat): char
    requires s < 64
  {
    if s < 26 then ('A' as int + s) as char
    else if s < 52 then ('a' as int + s - 26) as char
    else if s < 62 then ('0' as int + s - 52) as char
    else if s == 62 then '+' else '/'
  }

  /** The value of a character, or -1 outside the alphabet. */
  function SixOf(c: char): (s: int)
    ensures -1 <= s < 64
  {
    if 'A' <= c <= 'Z' then c as int - 'A' as int
    else if 'a' <= c <= 'z' then c as int - 'a' as int + 26
    else if '0' <= c <= '9' then c as int - '0' as int + 52
    else if c == '+' then 62
    else if c == '/' then 63
    else -1
  }

  lemma AlphabetInverse(s: nat, c: char)
    requires s < 64
    ensures SixOf(CharOf(s)) == s && CharOf(s) != '='
    ensures SixOf(c) >= 0 ==> CharOf(SixOf(c)) == c
  {
  }

  lemma BitOps(b0: bv32, b1: bv32, b2: bv32, value: bv32, six: bv32)
    requires b0 < 256 && b1 < 256 && b2 < 256 && six < 64
    ensures (b0 << 16) | (b1 << 8) | b2 == b0 * 65536 + b1 * 256 + b2
    ensures (value << 6) | six == value * 64 + six
    ensures (value >> 18) & 63 == value / 262144 % 64 && (value >> 12) & 63 == value / 4096 % 64
    ensures (value >> 6) & 63 == value / 64 % 64 && value & 63 == value % 64
    ensures value & 255 == value % 256 && (value >> 2) & 255 == value / 4 % 256
    ensures (value >> 4) & 255 == value / 16 % 256
  {
  }

  // ------------------------------------------------------------------------- bits

  type Bit = b: int | 0 <= b < 2

  function Pow2(k: nat): (p: nat)
    ensures p > 0
  {
    if k == 0 then 1 else 2 * Pow2(k - 1)
  }

  /** The low k bits of n, most significant first. */
  function Bits(n: nat, k: nat): (r: seq<Bit>)
    ensures |r| == k
  {
    if k == 0 then [] else Bits(n / 2, k - 1) + [n % 2]
  }

  function ValueOf(bits: seq<Bit>): nat {
    if bits == [] then 0 else 2 * ValueOf(bits[..|bits| - 1]) + bits[|bits| - 1]
  }

  lemma {:induction false} ValueBits(n: nat, k: nat)
    ensures n < Pow2(k) ==> ValueOf(Bits(n, k)) == n
  {
    if k > 0 {
      ValueBits(n / 2, k - 1);
      assert Bits(n, k)[..k - 1] == Bits(n / 2, k - 1);
    }
  }

  lemma {:induction false} BitsValue(bits: seq<Bit>)
    ensures ValueOf(bits) < Pow2(|bits|) && Bits(ValueOf(bits), |bits|) == bits
  {
    if bits != [] {
      var front := bits[..|bits| - 1];
      BitsValue(front);
      assert (2 * ValueOf(front) + bits[|bits| - 1]) / 2 == ValueOf(front);
    }
  }

  /** High bits followed by low bits. */
  lemma {:induction false} BitsJoin(a: nat, b: nat, j: nat, k: nat)
    requires b < Pow2(k)
    ensures Bits(a * Pow2(k) + b, j + k) == Bits(a, j) + Bits(b, k)
  {
    if k == 0 {
      assert a * Pow2(0) + b == a;
    } else {
      var n := a * Pow2(k) + b;
      assert n == 2 * (a * Pow2(k - 1)) + b;
      assert n / 2 == a * Pow2(k - 1) + b / 2 && n % 2 == b % 2;
      BitsJoin(a, b / 2, j, k - 1);
    }
  }

  /** Splitting off low bits. */
  lemma BitsLow(n: nat, high: nat, low: nat, j: nat, k: nat)
    requires n == high * Pow2(k) + low && low < Pow2(k)
    ensures Bits(n, j + k) == Bits(high, j) + Bits(low, k)
  {
    BitsJoin(high, low, j, k);
  }

  function BitsOf(bytes: seq<Byte>): (r: seq<Bit>)
    ensures |r| == 8 * |bytes|
  {
    if bytes == [] then [] else BitsOf(bytes[..|bytes| - 1]) + Bits(bytes[|bytes| - 1], 8)
  }

  lemma {:induction false} BitsOfJoin(a: seq<Byte>, b: seq<Byte>)
    ensures BitsOf(a + b) == BitsOf(a) + BitsOf(b)
  {
    if b == [] {
      assert a + b == a;
    } else {
      BitsOfJoin(a, b[..|b| - 1]);
      assert (a + b)[..|a + b| - 1] == a + b[..|b| - 1];
    }
  }

  /** A whole number of sextets. */
  predicate Sixes(bits: seq<Bit>) { |bits| % 6 == 0 }

  /** Each 6 bits as a character. */
  function Chars(bits: seq<Bit>): (r: string)
    requires Sixes(bits)
    ensures |r| == |bits| / 6
  {
    if bits == [] then []
    else
      BitsValue(bits[|bits| - 6..]);
      assert Pow2(6) == 64;
      Chars(bits[..|bits| - 6]) + [CharOf(ValueOf(bits[|bits| - 6..]))]
  }

  function Zeros(k: nat): (r: seq<Bit>)
    ensures |r| == k
  {
    seq(k, _ => 0)
  }

  function Equals(k: nat): string { seq(k, _ => '=') }

  /** How many bits are missing from a whole number of sextets, and how many
      characters from a whole number of groups of four. */
  function Missing(bits: nat): (z: nat)
    ensures z < 6 && (bits + z) % 6 == 0
  {
    if bits % 6 == 0 then 0 else 6 - bits % 6
  }

  function MissingChars(chars: nat): nat {
    if chars % 4 == 0 then 0 else 4 - chars % 4
  }

  /** One byte over a whole number of groups takes four zeros and ==, two take two and =. */
  lemma MissingOf(n: nat)
    ensures Missing(8 * n) == (if n % 3 == 0 then 0 else if n % 3 == 1 then 4 else 2)
    ensures var chars := (8 * n + Missing(8 * n)) / 6;
            MissingChars(chars) == (3 - n % 3) % 3 && chars + MissingChars(chars) == 4 * ((n + 2) / 3)
  {
    var q, r := n / 3, n % 3;
    assert n == 3 * q + r;
    assert 8 * n == 6 * (4 * q) + 8 * r;
    if r == 0 {
      DivModUnique(8 * n, 4 * q, 0, 6);
      DivModUnique(4 * q, q, 0, 4);
    } else if r == 1 {
      DivModUnique(8 * n, 4 * q + 1, 2, 6);
      DivModUnique(8 * n + 4, 4 * q + 2, 0, 6);
      DivModUnique(4 * q + 2, q, 2, 4);
    } else {
      DivModUnique(8 * n, 4 * q + 2, 4, 6);
      DivModUnique(8 * n + 2, 4 * q + 3, 0, 6);
      DivModUnique(4 * q + 3, q, 3, 4);
    }
  }

  /** Section 4 of RFC 4648: regroup the bits by sixes, filling up with zeros, and
      the characters by fours, filling up with =. */
  function Encode(bytes: seq<Byte>): string {
    var bits := BitsOf(bytes);
    var chars := Chars(bits + Zeros(Missing(|bits|)));
    chars + Equals(MissingChars(|chars|))
  }

  lemma EncodedLength(bytes: seq<Byte>)
    ensures |Encode(bytes)| == 4 * ((|bytes| + 2) / 3)
  {
    hide Chars, BitsOf, Missing, MissingChars;
    MissingOf(|bytes|);
  }

  // --------------------------------------------------------------------- encoding

  /** Three bytes in one word. */
  function Word(b0: nat, b1: nat, b2: nat): nat { b0 * 65536 + b1 * 256 + b2 }

  /** The k-th of its four sextets. */
  function Sextet(n: nat, k: nat): (s: nat)
    requires k < 4
    ensures s < 64
  {
    if k == 0 then n / 262144 % 64 else if k == 1 then n / 4096 % 64 else if k == 2 then n / 64 % 64 else n % 64
  }

  lemma SplitWord(n: nat)
    requires n < 16777216
    ensures n == n / 64 * 64 + Sextet(n, 3) && n / 64 == n / 4096 * 64 + Sextet(n, 2)
    ensures n / 4096 == Sextet(n, 0) * 64 + Sextet(n, 1)
  {
    assert n / 64 / 64 == n / 4096;
    assert n / 4096 / 64 == n / 262144 && n / 262144 < 64;
  }

  lemma SmallPowers()
    ensures Pow2(0) == 1 && Pow2(2) == 4 && Pow2(4) == 16 && Pow2(6) == 64 && Pow2(8) == 256 && Pow2(12) == 4096
  {
    assert Pow2(3) == 8 && Pow2(5) == 32 && Pow2(7) == 128 && Pow2(9) == 512 && Pow2(11) == 2048;
  }

  lemma CharsAppend(a: seq<Bit>, s: nat)
    requires Sixes(a) && s < 64
    ensures Sixes(a + Bits(s, 6))
    ensures Chars(a + Bits(s, 6)) == Chars(a) + [CharOf(s)]
  {
    var all := a + Bits(s, 6);
    assert all[|all| - 6..] == Bits(s, 6) && all[..|all| - 6] == a;
    SmallPowers();
    ValueBits(s, 6);
  }

  /** Three bytes are four sextets. */
  lemma Group(b0: nat, b1: nat, b2: nat)
    requires b0 < 256 && b1 < 256 && b2 < 256
    ensures var n := Word(b0, b1, b2);
            Bits(b0, 8) + Bits(b1, 8) + Bits(b2, 8)
            == Bits(Sextet(n, 0), 6) + Bits(Sextet(n, 1), 6) + Bits(Sextet(n, 2), 6) + Bits(Sextet(n, 3), 6)
  {
    hide Bits, Pow2, Sextet, Word;
    var n, high := Word(b0, b1, b2), b0 * 256 + b1;
    SmallPowers();
    WordBytes(b0, b1, b2, high);
    BitsLow(n, high, b2, 16, 8);
    BitsLow(high, b0, b1, 8, 8);
    WordSextets(n);
  }

  lemma WordBytes(b0: nat, b1: nat, b2: nat, high: nat)
    requires b0 < 256 && b1 < 256 && b2 < 256 && high == b0 * 256 + b1
    ensures Word(b0, b1, b2) == high * 256 + b2 && Word(b0, b1, b2) < 16777216
  {
  }

  lemma WordSextets(n: nat)
    requires n < 16777216
    ensures Bits(n, 24) == Bits(Sextet(n, 0), 6) + Bits(Sextet(n, 1), 6) + Bits(Sextet(n, 2), 6) + Bits(Sextet(n, 3), 6)
  {
    hide Bits, Pow2, Sextet;
    SmallPowers();
    SplitWord(n);
    BitsLow(n, n / 64, Sextet(n, 3), 18, 6);
    BitsLow(n / 64, n / 4096, Sextet(n, 2), 12, 6);
    BitsLow(n / 4096, Sextet(n, 0), Sextet(n, 1), 6, 6);
  }

  lemma {:induction false} ZeroBits(k: nat)
    ensures Bits(0, k) == Zeros(k)
  {
    if k > 0 {
      ZeroBits(k - 1);
      assert Zeros(k - 1) + [0] == Zeros(k);
    }
  }

  /** One byte and four zeros are two sextets. */
  lemma GroupOfOne(b0: nat)
    requires b0 < 256
    ensures var n := Word(b0, 0, 0); Bits(b0, 8) + Zeros(4) == Bits(Sextet(n, 0), 6) + Bits(Sextet(n, 1), 6)
  {
    hide Bits, Pow2, Sextet;
    var n := Word(b0, 0, 0);
    SmallPowers();
    ZeroBits(4);
    SplitWord(n);
    BitsLow(b0 * 16, b0, 0, 8, 4);
    BitsLow(b0 * 16, Sextet(n, 0), Sextet(n, 1), 6, 6);
  }

  /** Two bytes and two zeros are three sextets. */
  lemma GroupOfTwo(b0: nat, b1: nat)
    requires b0 < 256 && b1 < 256
    ensures var n := Word(b0, b1, 0);
            Bits(b0, 8) + Bits(b1, 8) + Zeros(2)
            == Bits(Sextet(n, 0), 6) + Bits(Sextet(n, 1), 6) + Bits(Sextet(n, 2), 6)
  {
    hide Bits, Pow2, Sextet;
    var n, m := Word(b0, b1, 0), b0 * 256 + b1;
    SmallPowers();
    ZeroBits(2);
    SplitWord(n);
    BitsLow(m * 4, m, 0, 16, 2);
    BitsLow(m, b0, b1, 8, 8);
    BitsLow(m * 4, n / 4096, Sextet(n, 2), 12, 6);
    BitsLow(n / 4096, Sextet(n, 0), Sextet(n, 1), 6, 6);
  }

  lemma TakeBytes(bytes: seq<Byte>, i: nat, k: nat)
    requires i + k <= |bytes| && k <= 3
    ensures k == 3 ==>
              BitsOf(bytes[..i + 3])
              == BitsOf(bytes[..i]) + (Bits(bytes[i], 8) + Bits(bytes[i + 1], 8) + Bits(bytes[i + 2], 8))
    ensures k == 2 ==> BitsOf(bytes[..i + 2]) == BitsOf(bytes[..i]) + (Bits(bytes[i], 8) + Bits(bytes[i + 1], 8))
    ensures k == 1 ==> BitsOf(bytes[..i + 1]) == BitsOf(bytes[..i]) + Bits(bytes[i], 8)
  {
    hide Bits;
    if k >= 1 { OneByte(bytes, i); }
    if k >= 2 { OneByte(bytes, i + 1); }
    if k >= 3 { OneByte(bytes, i + 2); }
  }

  lemma OneByte(bytes: seq<Byte>, i: nat)
    requires i < |bytes|
    ensures BitsOf(bytes[..i + 1]) == BitsOf(bytes[..i]) + Bits(bytes[i], 8)
  {
    assert bytes[..i + 1][..i] == bytes[..i];
  }

  method ToBase64(bytes: seq<Byte>) returns (out: string)
    ensures out == Encode(bytes)
  {
    hide Chars, BitsOf, Bits, CharOf, Zeros, Encode, Word, Sextet, Sixes;
    NoChars();
    out := "";
    var i := 0;
    while i + 2 < |bytes|
      invariant 0 <= i <= |bytes| && i % 3 == 0
      invariant Sixes(BitsOf(bytes[..i])) && out == Chars(BitsOf(bytes[..i]))
    {
      var b0, b1, b2 := bytes[i], bytes[i + 1], bytes[i + 2];
      var n := Word(b0, b1, b2);
      EncodeGroup(bytes, i);
      out := out + [CharOf(Sextet(n, 0)), CharOf(Sextet(n, 1)), CharOf(Sextet(n, 2)), CharOf(Sextet(n, 3))];
      i := i + 3;
    }
    var rem := |bytes| - i;
    if rem == 1 {
      var n := Word(bytes[i], 0, 0);
      EncodeOneLeft(bytes, i);
      out := out + [CharOf(Sextet(n, 0)), CharOf(Sextet(n, 1))] + "==";
    } else if rem == 2 {
      var n := Word(bytes[i], bytes[i + 1], 0);
      EncodeTwoLeft(bytes, i);
      out := out + [CharOf(Sextet(n, 0)), CharOf(Sextet(n, 1)), CharOf(Sextet(n, 2))] + "=";
    } else {
      EncodeWhole(bytes);
      assert bytes[..i] == bytes;
    }
  }

  lemma NoChars()
    ensures Sixes([]) && Chars([]) == [] && BitsOf([]) == []
  {
  }

  lemma TwoSextets(front: seq<Bit>, s0: nat, s1: nat)
    requires Sixes(front) && s0 < 64 && s1 < 64
    ensures Sixes(front + (Bits(s0, 6) + Bits(s1, 6)))
    ensures Chars(front + (Bits(s0, 6) + Bits(s1, 6))) == Chars(front) + [CharOf(s0), CharOf(s1)]
  {
    hide Bits, Chars, CharOf, Sixes;
    var one := front + Bits(s0, 6);
    CharsAppend(front, s0);
    CharsAppend(one, s1);
    assert front + (Bits(s0, 6) + Bits(s1, 6)) == one + Bits(s1, 6);
  }

  lemma ThreeSextets(front: seq<Bit>, s0: nat, s1: nat, s2: nat)
    requires Sixes(front) && s0 < 64 && s1 < 64 && s2 < 64
    ensures Sixes(front + (Bits(s0, 6) + Bits(s1, 6) + Bits(s2, 6)))
    ensures Chars(front + (Bits(s0, 6) + Bits(s1, 6) + Bits(s2, 6)))
            == Chars(front) + [CharOf(s0), CharOf(s1), CharOf(s2)]
  {
    hide Bits, Chars, CharOf, Sixes;
    var two := front + (Bits(s0, 6) + Bits(s1, 6));
    TwoSextets(front, s0, s1);
    CharsAppend(two, s2);
    assert front + (Bits(s0, 6) + Bits(s1, 6) + Bits(s2, 6)) == two + Bits(s2, 6);
  }

  lemma FourSextets(front: seq<Bit>, s0: nat, s1: nat, s2: nat, s3: nat)
    requires Sixes(front) && s0 < 64 && s1 < 64 && s2 < 64 && s3 < 64
    ensures Sixes(front + (Bits(s0, 6) + Bits(s1, 6) + Bits(s2, 6) + Bits(s3, 6)))
    ensures Chars(front + (Bits(s0, 6) + Bits(s1, 6) + Bits(s2, 6) + Bits(s3, 6)))
            == Chars(front) + [CharOf(s0), CharOf(s1), CharOf(s2), CharOf(s3)]
  {
    hide Bits, Chars, CharOf, Sixes;
    var three := front + (Bits(s0, 6) + Bits(s1, 6) + Bits(s2, 6));
    ThreeSextets(front, s0, s1, s2);
    CharsAppend(three, s3);
    assert front + (Bits(s0, 6) + Bits(s1, 6) + Bits(s2, 6) + Bits(s3, 6)) == three + Bits(s3, 6);
  }

  lemma EncodeGroup(bytes: seq<Byte>, i: nat)
    requires i + 2 < |bytes| && Sixes(BitsOf(bytes[..i]))
    ensures Sixes(BitsOf(bytes[..i + 3]))
    ensures var n := Word(bytes[i], bytes[i + 1], bytes[i + 2]);
            Chars(BitsOf(bytes[..i + 3])) == Chars(BitsOf(bytes[..i]))
              + [CharOf(Sextet(n, 0)), CharOf(Sextet(n, 1)), CharOf(Sextet(n, 2)), CharOf(Sextet(n, 3))]
  {
    hide Bits, Chars, CharOf, BitsOf, Sextet, Word, Sixes;
    var n := Word(bytes[i], bytes[i + 1], bytes[i + 2]);
    TakeBytes(bytes, i, 3);
    Group(bytes[i], bytes[i + 1], bytes[i + 2]);
    FourSextets(BitsOf(bytes[..i]), Sextet(n, 0), Sextet(n, 1), Sextet(n, 2), Sextet(n, 3));
  }

  function Pad(n: nat): string { if n % 3 == 0 then "" else if n % 3 == 1 then "==" else "=" }

  lemma EncodePadded(bytes: seq<Byte>, zeros: nat, chars: string)
    requires zeros == (if |bytes| % 3 == 0 then 0 else if |bytes| % 3 == 1 then 4 else 2)
    requires Sixes(BitsOf(bytes) + Zeros(zeros)) && Chars(BitsOf(bytes) + Zeros(zeros)) == chars
    ensures Encode(bytes) == chars + Pad(|bytes|)
  {
    hide Bits, Chars, CharOf, BitsOf, Zeros, Missing, MissingChars, Sixes;
    MissingOf(|bytes|);
    assert Equals(0) == "" && Equals(1) == "=" && Equals(2) == "==";
  }

  lemma EncodeOneLeft(bytes: seq<Byte>, i: nat)
    requires |bytes| == i + 1 && i % 3 == 0 && Sixes(BitsOf(bytes[..i]))
    ensures var n := Word(bytes[i], 0, 0);
            Encode(bytes) == Chars(BitsOf(bytes[..i])) + [CharOf(Sextet(n, 0)), CharOf(Sextet(n, 1))] + "=="
  {
    hide Bits, Chars, CharOf, BitsOf, Zeros, Word, Sextet, Encode, Sixes;
    var front, n := BitsOf(bytes[..i]), Word(bytes[i], 0, 0);
    assert bytes[..i + 1] == bytes;
    TakeBytes(bytes, i, 1);
    GroupOfOne(bytes[i]);
    TwoSextets(front, Sextet(n, 0), Sextet(n, 1));
    assert BitsOf(bytes) + Zeros(4) == front + (Bits(bytes[i], 8) + Zeros(4));
    EncodePadded(bytes, 4, Chars(front) + [CharOf(Sextet(n, 0)), CharOf(Sextet(n, 1))]);
  }

  lemma EncodeTwoLeft(bytes: seq<Byte>, i: nat)
    requires |bytes| == i + 2 && i % 3 == 0 && Sixes(BitsOf(bytes[..i]))
    ensures var n := Word(bytes[i], bytes[i + 1], 0);
            Encode(bytes)
            == Chars(BitsOf(bytes[..i])) + [CharOf(Sextet(n, 0)), CharOf(Sextet(n, 1)), CharOf(Sextet(n, 2))] + "="
  {
    hide Bits, Chars, CharOf, BitsOf, Zeros, Word, Sextet, Encode, Sixes;
    var front, n := BitsOf(bytes[..i]), Word(bytes[i], bytes[i + 1], 0);
    assert bytes[..i + 2] == bytes;
    TakeBytes(bytes, i, 2);
    GroupOfTwo(bytes[i], bytes[i + 1]);
    ThreeSextets(front, Sextet(n, 0), Sextet(n, 1), Sextet(n, 2));
    assert BitsOf(bytes) + Zeros(2) == front + (Bits(bytes[i], 8) + Bits(bytes[i + 1], 8) + Zeros(2));
    EncodePadded(bytes, 2, Chars(front) + [CharOf(Sextet(n, 0)), CharOf(Sextet(n, 1)), CharOf(Sextet(n, 2))]);
  }

  lemma EncodeWhole(bytes: seq<Byte>)
    requires |bytes| % 3 == 0
    ensures Sixes(BitsOf(bytes)) && Encode(bytes) == Chars(BitsOf(bytes))
  {
    hide Chars, BitsOf, Missing, MissingChars, Encode;
    MissingOf(|bytes|);
    assert BitsOf(bytes) + Zeros(0) == BitsOf(bytes);
    hide Sixes;
    EncodePadded(bytes, 0, Chars(BitsOf(bytes)));
  }

  // --------------------------------------------------------------------- decoding

  function StripPad(text: string): (r: string)
    ensures r <= text
  {
    if text != "" && text[|text| - 1] == '=' then StripPad(text[..|text| - 1]) else text
  }

  /** All characters are in the alphabet. */
  ghost predicate InAlphabet(text: string) {
    forall i :: 0 <= i < |text| ==> SixOf(text[i]) >= 0
  }

  function SixBits(c: char): (r: seq<Bit>)
    ensures |r| == 6
  {
    Bits(if SixOf(c) < 0 then 0 else SixOf(c), 6)
  }

  function CharBits(text: string): (r: seq<Bit>)
    ensures |r| == 6 * |text|
  {
    if text == "" then [] else CharBits(text[..|text| - 1]) + SixBits(text[|text| - 1])
  }

  /** Each whole 8 bits as a byte; bits left over are dropped. */
  function BytesFrom(bits: seq<Bit>): (r: seq<Byte>)
    ensures |r| == |bits| / 8
  {
    if |bits| < 8 then []
    else
      BitsValue(bits[..8]);
      assert Pow2(8) == 256;
      [ValueOf(bits[..8])] + BytesFrom(bits[8..])
  }

  /** Decoding: an error for a character outside the alphabet, else the bytes of the bits. */
  ghost function Decode(text: string): Result<seq<Byte>> {
    var clean := StripPad(text);
    if InAlphabet(clean) then Ok(BytesFrom(CharBits(clean))) else Err
  }

  lemma FirstByte(bits: seq<Bit>)
    requires |bits| >= 8
    ensures BytesFrom(bits) == BytesFrom(bits[..8]) + BytesFrom(bits[8..])
  {
    assert bits[..8][..8] == bits[..8] && bits[..8][8..] == [];
  }

  lemma {:induction false} BytesSnoc(bits: seq<Bit>, p: nat)
    requires 8 * p + 8 <= |bits|
    ensures BytesFrom(bits[..8 * p + 8]) == BytesFrom(bits[..8 * p]) + BytesFrom(bits[8 * p..8 * p + 8])
  {
    if p > 0 {
      var rest, long, short := bits[8..], bits[..8 * p + 8], bits[..8 * p];
      BytesSnoc(rest, p - 1);
      assert long[8..] == rest[..8 * (p - 1) + 8] && long[..8] == bits[..8];
      assert short[8..] == rest[..8 * (p - 1)] && short[..8] == bits[..8];
      assert bits[8 * p..8 * p + 8] == rest[8 * (p - 1)..8 * (p - 1) + 8];
      FirstByte(long);
      FirstByte(short);
      hide BytesFrom;
    } else {
      assert bits[..8] == bits[8 * p..8 * p + 8];
    }
  }

  lemma {:induction false} BitsMod(n: nat, k: nat, m: nat)
    requires k <= m
    ensures Bits(n % Pow2(m), k) == Bits(n, k)
  {
    if k > 0 {
      var p := Pow2(m - 1);
      HalfMod(n, p);
      BitsMod(n / 2, k - 1, m - 1);
    }
  }

  lemma HalfMod(n: nat, p: nat)
    requires p > 0
    ensures n % (2 * p) / 2 == n / 2 % p && n % (2 * p) % 2 == n % 2
  {
    var q, r := n / (2 * p), n % (2 * p);
    assert n == 2 * (q * p) + r;
    assert n / 2 == q * p + r / 2 && r / 2 < p;
    DivModUnique(n / 2, q, r / 2, p);
  }

  /** Shifting six bits into the accumulator, whatever it loses at the top, keeps
      the bits that are still to be read. */
  lemma ShiftIn(value: nat, six: nat, bits: nat)
    requires six < 64 && bits <= 26
    ensures Bits((value * 64 + six) % WORD, bits + 6) == Bits(value, bits) + Bits(six, 6)
  {
    hide Bits, Pow2;
    SmallPowers();
    Pow2Of32();
    BitsMod(value * 64 + six, bits + 6, 32);
    BitsLow(value * 64 + six, value, six, bits, 6);
  }

  lemma Pow2Of32()
    ensures Pow2(32) == WORD
  {
    assert Pow2(2) == 4 && Pow2(4) == 16 && Pow2(6) == 64 && Pow2(8) == 256 && Pow2(10) == 1024 && Pow2(12) == 4096;
    assert Pow2(14) == 16384 && Pow2(16) == 65536 && Pow2(18) == 262144 && Pow2(20) == 1048576 && Pow2(22) == 4194304;
    assert Pow2(24) == 16777216 && Pow2(26) == 67108864 && Pow2(28) == 268435456 && Pow2(30) == 1073741824;
  }

  /** Taking a byte out leaves the bits below it. */
  lemma TakeOut(value: nat, bits: nat)
    ensures Bits(value, 8 + bits) == Bits(value / Pow2(bits) % 256, 8) + Bits(value, bits)
  {
    hide Bits, Pow2;
    var p := Pow2(bits);
    assert value == value / p * p + value % p;
    BitsLow(value, value / p, value % p, 8, bits);
    BitsMod(value, bits, bits);
    SmallPowers();
    BitsMod(value / p, 8, 8);
  }

  lemma OneByteFrom(bits: seq<Bit>, b: nat)
    requires |bits| == 8 && b < 256 && bits == Bits(b, 8)
    ensures BytesFrom(bits) == [b]
  {
    assert bits[..8] == bits;
    SmallPowers();
    ValueBits(b, 8);
  }

  lemma ClearStep(clean: string, i: nat)
    requires i < |clean|
    ensures CharBits(clean[..i + 1]) == CharBits(clean[..i]) + SixBits(clean[i])
  {
    assert clean[..i + 1][..i] == clean[..i];
  }

  /** What the loop knows after i characters: p bytes are out, and the low bits of
      the accumulator are the bits read but not yet out. */
  ghost predicate Accumulated(clean: string, i: nat, value: nat, bits: nat, out: seq<Byte>)
    requires i <= |clean|
  {
    var all, p := CharBits(clean[..i]), |out|;
    && 8 * p + bits == 6 * i
    && out == BytesFrom(all[..8 * p])
    && Bits(value, bits) == all[8 * p..]
  }

  lemma Shifted(clean: string, i: nat, value: nat, bits: nat, out: seq<Byte>)
    requires i < |clean| && Accumulated(clean, i, value, bits, out) && bits < 8 && SixOf(clean[i]) >= 0
    ensures Accumulated(clean, i + 1, (value * 64 + SixOf(clean[i])) % WORD, bits + 6, out)
  {
    hide Bits, BytesFrom, CharBits, SixOf;
    var six := SixOf(clean[i]);
    ShiftIn(value, six, bits);
    ClearStep(clean, i);
    var all, p := CharBits(clean[..i]), |out|;
    assert (all + Bits(six, 6))[..8 * p] == all[..8 * p];
    assert (all + Bits(six, 6))[8 * p..] == all[8 * p..] + Bits(six, 6);
  }

  /** The byte above the low bits. */
  function NextByte(value: nat, bits: nat): Byte { value / Pow2(bits) % 256 }

  lemma Emitted(clean: string, i: nat, value: nat, bits: nat, out: seq<Byte>)
    requires i <= |clean| && bits >= 8 && Accumulated(clean, i, value, bits, out)
    ensures Accumulated(clean, i, value, bits - 8, out + [NextByte(value, bits - 8)])
  {
    hide Bits, BytesFrom, CharBits, Pow2;
    var b := NextByte(value, bits - 8);
    TakeOut(value, bits - 8);
    var all, p := CharBits(clean[..i]), |out|;
    var next := all[8 * p..8 * p + 8];
    assert next == all[8 * p..][..8] == Bits(b, 8);
    assert all[8 * p + 8..] == all[8 * p..][8..] == Bits(value, bits - 8);
    BytesSnoc(all, p);
    OneByteFrom(next, b);
  }

  method FromBase64(text: string) returns (r: Result<seq<Byte>>)
    ensures r == Decode(text)
  {
    hide Accumulated, BytesFrom, CharBits, Bits, SixOf, StripPad, NextByte, InAlphabet;
    var clean := StripPad(text);
    AlphabetGrows(clean, 0);
    var outLen := |clean| * 6 / 8;
    var out := new Byte[outLen](_ => 0);
    var bits, value, p := 0, 0, 0;
    NothingRead(clean);
    for i := 0 to |clean|
      invariant bits < 8 && 8 * p + bits == 6 * i && p <= outLen && 0 <= value < WORD
      invariant Accumulated(clean, i, value, bits, out[..p])
      invariant InAlphabet(clean[..i])
    {
      var six := SixOf(clean[i]);
      AlphabetGrows(clean, i);
      if six < 0 { return Err; }
      Shifted(clean, i, value, bits, out[..p]);
      value := (value * 64 + six) % WORD;
      bits := bits + 6;
      if bits >= 8 {
        Emitted(clean, i + 1, value, bits, out[..p]);
        bits := bits - 8;
        ghost var before := out[..p];
        out[p] := NextByte(value, bits);
        p := p + 1;
        assert out[..p] == before + [out[p - 1]];
      }
    }
    AllRead(clean, value, bits, out[..p]);
    assert p == outLen && out[..p] == out[..] && clean[..|clean|] == clean;
    r := Ok(out[..]);
  }

  lemma AlphabetGrows(clean: string, i: nat)
    requires i <= |clean|
    ensures InAlphabet([]) && clean[..0] == []
    ensures i < |clean| && SixOf(clean[i]) < 0 ==> !InAlphabet(clean)
    ensures i < |clean| && SixOf(clean[i]) >= 0 && InAlphabet(clean[..i]) ==> InAlphabet(clean[..i + 1])
  {
  }

  lemma NothingRead(clean: string)
    ensures Accumulated(clean, 0, 0, 0, [])
  {
  }

  lemma AllRead(clean: string, value: nat, bits: nat, out: seq<Byte>)
    requires Accumulated(clean, |clean|, value, bits, out) && bits < 8
    ensures out == BytesFrom(CharBits(clean))
  {
    hide Bits, CharBits;
    assert clean[..|clean|] == clean;
    var all, p := CharBits(clean), |out|;
    assert all == all[..8 * p] + all[8 * p..];
    DropRest(all[..8 * p], all[8 * p..]);
  }

  lemma {:induction false} DropRest(whole: seq<Bit>, rest: seq<Bit>)
    requires |whole| % 8 == 0 && |rest| < 8
    ensures BytesFrom(whole + rest) == BytesFrom(whole)
  {
    if |whole| >= 8 {
      DropRest(whole[8..], rest);
      assert (whole + rest)[..8] == whole[..8] && (whole + rest)[8..] == whole[8..] + rest;
    }
  }

  // ------------------------------------------------------------------- round trip

  lemma {:induction false} StripEquals(chars: string, k: nat)
    requires chars == "" || chars[|chars| - 1] != '='
    ensures StripPad(chars + Equals(k)) == chars
  {
    if k > 0 {
      StripEquals(chars, k - 1);
      assert (chars + Equals(k))[..|chars| + k - 1] == chars + Equals(k - 1);
    } else {
      assert chars + Equals(0) == chars;
    }
  }

  lemma CharBitsAppend(text: string, c: char)
    ensures CharBits(text + [c]) == CharBits(text) + SixBits(c)
  {
    assert (text + [c])[..|text|] == text;
  }

  lemma {:induction false} CharsRead(bits: seq<Bit>)
    requires Sixes(bits)
    ensures InAlphabet(Chars(bits)) && CharBits(Chars(bits)) == bits
    ensures bits != [] ==> Chars(bits)[|Chars(bits)| - 1] != '='
  {
    hide SixOf, CharOf, Bits, ValueOf, Pow2, Chars, CharBits;
    if bits == [] {
      NoChars();
      assert CharBits("") == [];
    } else {
      var front, last := bits[..|bits| - 6], bits[|bits| - 6..];
      CharsRead(front);
      BitsValue(last);
      SmallPowers();
      var v := ValueOf(last);
      assert bits == front + Bits(v, 6);
      CharsAppend(front, v);
      CharBitsAppend(Chars(front), CharOf(v));
      AlphabetInverse(v, 'A');
    }
  }

  lemma {:induction false} BytesRead(bytes: seq<Byte>, rest: seq<Bit>)
    requires |rest| < 8
    ensures BytesFrom(BitsOf(bytes) + rest) == bytes
  {
    if bytes != [] {
      var b, more := bytes[0], bytes[1..];
      assert bytes == [b] + more;
      BitsOfJoin([b], more);
      assert BitsOf([b]) == BitsOf([b][..0]) + Bits(b, 8);
      BytesRead(more, rest);
      var all := BitsOf(bytes) + rest;
      assert all[..8] == Bits(b, 8) && all[8..] == BitsOf(more) + rest;
      SmallPowers();
      ValueBits(b, 8);
    }
  }

  /** The characters of an encoding hold its bits filled up with zeros. */
  lemma EncodedReads(bytes: seq<Byte>)
    ensures var bits := BitsOf(bytes) + Zeros(Missing(8 * |bytes|));
            && StripPad(Encode(bytes)) == Chars(bits) && InAlphabet(Chars(bits)) && CharBits(Chars(bits)) == bits
            && |Encode(bytes)| == |Chars(bits)| + MissingChars(|Chars(bits)|)
  {
    hide Chars, BitsOf, CharBits, StripPad, SixOf;
    var bits := BitsOf(bytes) + Zeros(Missing(8 * |bytes|));
    CharsRead(bits);
    StripEquals(Chars(bits), MissingChars(|Chars(bits)|));
  }

  /** Decoding undoes encoding, for every byte string. */
  lemma Base64RoundTrip(bytes: seq<Byte>)
    ensures Decode(Encode(bytes)) == Ok(bytes)
  {
    hide Chars, BitsOf, BytesFrom, CharBits, StripPad, InAlphabet, Encode;
    EncodedReads(bytes);
    BytesRead(bytes, Zeros(Missing(8 * |bytes|)));
  }

  // -------------------------------------------------------------- canonical texts

  lemma {:induction false} StrippedPad(text: string)
    ensures text == StripPad(text) + Equals(|text| - |StripPad(text)|)
  {
    var n := |text|;
    if text != "" && text[n - 1] == '=' {
      StrippedPad(text[..n - 1]);
      assert text == text[..n - 1] + ['='];
      assert Equals(n - 1 - |StripPad(text)|) + ['='] == Equals(n - |StripPad(text)|);
    }
  }

  /** Characters of the alphabet are those of their bits. */
  lemma {:induction false} CharsOfBits(text: string)
    requires InAlphabet(text)
    ensures Chars(CharBits(text)) == text
  {
    hide SixOf, CharOf, Bits, ValueOf, Chars, CharBits;
    if text == "" {
      NoChars();
      assert CharBits("") == [];
    } else {
      var front, c := text[..|text| - 1], text[|text| - 1];
      CharsOfBits(front);
      assert text == front + [c];
      CharBitsAppend(front, c);
      CharsAppend(CharBits(front), SixOf(c));
      AlphabetInverse(0, c);
    }
  }

  /** The bytes of bits hold them, but for those left over. */
  lemma {:induction false} BitsOfBytes(bits: seq<Bit>)
    ensures BitsOf(BytesFrom(bits)) == bits[..8 * (|bits| / 8)]
  {
    hide Bits, ValueOf, Pow2;
    if |bits| >= 8 {
      var first, rest := bits[..8], bits[8..];
      BitsValue(first);
      SmallPowers();
      BitsOfBytes(rest);
      BitsOfJoin([ValueOf(first)], BytesFrom(rest));
      assert [ValueOf(first)][..0] == [];
      assert BitsOf([ValueOf(first)]) == first;
      assert |bits| / 8 == 1 + |rest| / 8;
      assert bits[..8 * (|bits| / 8)] == first + rest[..8 * (|rest| / 8)];
    }
  }

  /** How many bits are left over, and how many are missing for the bytes read. */
  lemma LeftOver(n: nat)
    ensures var p := 6 * n / 8; 6 * n == 8 * p + 2 * (3 * n % 4) && (n % 4 == 1 <==> 3 * n % 4 == 3)
    ensures n % 4 != 1 ==> Missing(8 * (6 * n / 8)) == 6 * n - 8 * (6 * n / 8)
  {
    hide Missing;
    var q, r := n / 4, n % 4;
    var extra := if r == 2 then 1 else if r == 3 then 2 else 0;
    DivModUnique(6 * n, 3 * q + extra, 6 * r - 8 * extra, 8);
    DivModUnique(3 * n, 3 * q + extra, 3 * r - 4 * extra, 4);
    DivModUnique(3 * q + extra, q, extra, 3);
    MissingOf(3 * q + extra);
  }

  /** The bits after the last whole byte are zero. */
  predicate NothingLeft(bits: seq<Bit>) {
    forall k :: 8 * (|bits| / 8) <= k < |bits| ==> bits[k] == 0
  }

  /** Of the texts that are accepted, exactly these are what encoding their bytes
      gives: the characters can end a byte string, = fills them up to groups of four,
      and the bits left over are zero. */
  lemma CanonicalTexts(text: string)
    requires Decode(text).Ok?
    ensures var clean := StripPad(text);
            Encode(Decode(text).value) == text
            <==> |clean| % 4 != 1 && |text| == |clean| + MissingChars(|clean|) && NothingLeft(CharBits(clean))
  {
    hide Chars, BitsOf, BytesFrom, CharBits, StripPad, Missing, MissingChars, InAlphabet;
    var clean := StripPad(text);
    var n, bits := |clean|, CharBits(clean);
    var bytes := BytesFrom(bits);
    var p, z := |bytes|, Missing(8 * |bytes|);
    LeftOver(n);
    StrippedPad(text);
    CharsOfBits(clean);
    BitsOfBytes(bits);
    if n % 4 != 1 && |text| == n + MissingChars(n) && NothingLeft(bits) {
      assert bits == bits[..8 * p] + Zeros(z);
    }
    if Encode(bytes) == text {
      EncodedReads(bytes);
      assert bits == BitsOf(bytes) + Zeros(z);
    }
  }
}

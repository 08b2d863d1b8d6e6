/** The values of record fields (src/data/dataflash/decoder.ts). */
module DataFlashFields {
  import opened Text
  import opened Numbers
  import opened DataFlash
  import opened DataFlashLog
  import opened DataFlashRecords

  /** Single and double precision numbers are kept as their bits. */
  datatype Value = Number(r: real) | Bits(n: nat) | Big(i: int) | Characters(s: string) | Array(ns: seq<int>)

  /** The bytes as a number, least significant first. */
  function Unsigned(raw: seq<Byte>): nat {
    if raw == [] then 0 else raw[0] as int + 256 * Unsigned(raw[1..])
  }

  /** The same in two's complement. */
  function Signed(raw: seq<Byte>): int {
    if raw != [] && raw[|raw| - 1] >= 128 then Unsigned(raw) - Pow256(|raw|) else Unsigned(raw)
  }

  function Int16s(raw: seq<Byte>): (ns: seq<int>)
    ensures |ns| == |raw| / 2
  {
    seq(|raw| / 2, i requires 0 <= i < |raw| / 2 => Signed(raw[2 * i..2 * i + 2]))
  }

  method DecodeArray(raw: seq<Byte>) returns (ns: seq<int>)
    requires |raw| == 64
    ensures ns == Int16s(raw)
  {
    ns := [];
    for i := 0 to 32
      invariant ns == Int16s(raw)[..i]
    {
      ns := ns + [Signed(raw[2 * i..2 * i + 2])];
    }
  }

  function DecodeValue(f: Field): Value
    requires |f.raw| == FieldSize(f.code) && FieldSize(f.code) > 0
  {
    match f.code
    case 'a' => Array(Int16s(f.raw))
    case 'b' | 'h' | 'i' => Number(Signed(f.raw) as real)
    case 'B' | 'M' | 'H' | 'I' => Number(Unsigned(f.raw) as real)
    case 'f' | 'd' => Bits(Unsigned(f.raw))
    case 'c' | 'e' => Number(Signed(f.raw) as real / 100.0)
    case 'C' | 'E' => Number(Unsigned(f.raw) as real / 100.0)
    case 'L' => Number(Signed(f.raw) as real / 10000000.0)
    case 'q' => Big(Signed(f.raw))
    case 'Q' => Big(Unsigned(f.raw))
    case _ => Characters(Trim(CString(f.raw, 0, |f.raw|)))
  }

  // ------------------------------------------------------------------- as written

  /** The low k bytes of n in two's complement, least significant first. */
  function LittleBytes(n: int, k: nat): (r: seq<Byte>)
    ensures |r| == k
    decreases k
  {
    if k == 0 then [] else [n % 256] + LittleBytes(n / 256, k - 1)
  }

  lemma {:induction false} UnsignedBytes(n: int, k: nat)
    requires 0 <= n < Pow256(k)
    ensures Unsigned(LittleBytes(n, k)) == n
  {
    if k > 0 {
      UnsignedBytes(n / 256, k - 1);
      assert LittleBytes(n, k)[1..] == LittleBytes(n / 256, k - 1);
    }
  }

  /** n and n modulo the power have the same low bytes. */
  lemma {:induction false} SameBytes(n: int, k: nat)
    ensures LittleBytes(n + Pow256(k), k) == LittleBytes(n, k)
    decreases k
  {
    if k > 0 {
      var p := Pow256(k - 1);
      assert (n + 256 * p) % 256 == n % 256 && (n + 256 * p) / 256 == n / 256 + p;
      SameBytes(n / 256, k - 1);
    }
  }

  lemma {:induction false} UnsignedBelow(raw: seq<Byte>)
    ensures Unsigned(raw) < Pow256(|raw|)
  {
    if raw != [] { UnsignedBelow(raw[1..]); }
  }

  /** The last byte holds the highest bit. */
  lemma {:induction false} HighBit(raw: seq<Byte>)
    requires raw != []
    ensures raw[|raw| - 1] >= 128 <==> 2 * Unsigned(raw) >= Pow256(|raw|)
  {
    var rest := raw[1..];
    assert Unsigned(raw) == raw[0] as int + 256 * Unsigned(rest) && Pow256(|raw|) == 256 * Pow256(|rest|);
    if rest == [] {
      assert Unsigned(rest) == 0 && Pow256(0) == 1;
    } else {
      HighBit(rest);
      assert raw[|raw| - 1] == rest[|rest| - 1] && Pow256(|rest|) == 2 * (128 * Pow256(|rest| - 1));
      hide Unsigned, Pow256;
      ByteInFront(raw[0] as int, Unsigned(rest), 128 * Pow256(|rest| - 1));
    }
  }

  lemma ByteInFront(b: nat, u: nat, h: nat)
    requires b < 256
    ensures 2 * (b + 256 * u) >= 256 * (2 * h) <==> 2 * u >= 2 * h
  {
  }

  lemma SignedBytes(n: int, k: nat)
    requires k > 0 && 0 <= 2 * n + Pow256(k) < 2 * Pow256(k)
    ensures Signed(LittleBytes(n, k)) == n
  {
    hide LittleBytes, Unsigned, Pow256;
    var m := if n < 0 then n + Pow256(k) else n;
    SameBytes(n, k);
    UnsignedBytes(m, k);
    HighBit(LittleBytes(m, k));
  }

  /** What the integer a field holds may be. */
  function Range(code: char): Option<(int, int)> {
    match code
    case 'b' => Some((-128, 127))
    case 'B' | 'M' => Some((0, 255))
    case 'h' | 'c' => Some((-32768, 32767))
    case 'H' | 'C' => Some((0, 65535))
    case 'i' | 'e' | 'L' => Some((-2147483648, 2147483647))
    case 'I' | 'E' => Some((0, 4294967295))
    case 'q' => Some((-9223372036854775808, 9223372036854775807))
    case 'Q' => Some((0, 18446744073709551615))
    case _ => None
  }

  /** Hundredths, ten-millionths of a degree, or units. */
  function Scale(code: char): real {
    match code
    case 'c' | 'C' | 'e' | 'E' => 100.0
    case 'L' => 10000000.0
    case _ => 1.0
  }

  function Meant(code: char, n: int): Value {
    if code == 'q' || code == 'Q' then Big(n) else Number(n as real / Scale(code))
  }

  lemma Powers()
    ensures Pow256(1) == 256 && Pow256(2) == 65536 && Pow256(4) == 4294967296
    ensures Pow256(8) == 18446744073709551616
  {
    assert Pow256(3) == 16777216 && Pow256(6) == 281474976710656;
  }

  /** The integer of a field, as its range says it is read. */
  lemma IntegerMeant(f: Field)
    requires Range(f.code).Some? && |f.raw| == FieldSize(f.code)
    ensures DecodeValue(f)
            == Meant(f.code, if Range(f.code).value.0 < 0 then Signed(f.raw) else Unsigned(f.raw))
  {
    hide Signed, Unsigned, FieldSize;
  }

  /** A field's range is just what its bytes can hold, with or without a sign. */
  lemma RangeIsWhole(code: char)
    requires Range(code).Some?
    ensures FieldSize(code) > 0
    ensures var (lo, hi), p := Range(code).value, Pow256(FieldSize(code));
            if lo < 0 then -2 * lo == p && 2 * hi + 2 == p else lo == 0 && hi + 1 == p
  {
    Powers();
    hide Pow256;
  }

  /** The characters a format may use: integers, text, precision numbers and arrays. */
  predicate KnownCode(code: char) {
    Range(code).Some? || code == 'n' || code == 'N' || code == 'Z' || code == 'f' || code == 'd' || code == 'a'
  }

  /** A complete FMT packet throws exactly when its format holds any other character. */
  lemma UnknownThrows(base: nat, s: seq<Byte>, h: nat, formats: Formats)
    requires HeaderAt(s, h) && |s| - h >= FMT_PACKET_BYTES && s[h + 2] == FMT_TYPE
    ensures var parsed := ParseFmt(s[h + HEADER_BYTES..h + FMT_PACKET_BYTES]);
            StepAt(base, s, h, formats).Throw?
            <==> parsed.Some? && exists i :: 0 <= i < |parsed.value.format| && !KnownCode(parsed.value.format[i])
  {
    hide ParseFmt;
    var parsed := ParseFmt(s[h + HEADER_BYTES..h + FMT_PACKET_BYTES]);
    if parsed.Some? {
      var format := parsed.value.format;
      forall i | 0 <= i < |format| ensures FieldSize(format[i]) > 0 <==> KnownCode(format[i]) { KnownCodes(format[i]); }
      hide FieldSize, KnownCode;
    }
  }

  lemma KnownCodes(code: char)
    ensures FieldSize(code) > 0 <==> KnownCode(code)
  {
  }

  /** An integer in range, written in the bytes of its field, reads back as meant. */
  lemma IntegerField(code: char, n: int)
    requires Range(code).Some? && Range(code).value.0 <= n <= Range(code).value.1
    ensures DecodeValue(Field(code, LittleBytes(n, FieldSize(code)))) == Meant(code, n)
  {
    RangeIsWhole(code);
    hide FieldSize, LittleBytes, Signed, Unsigned, Pow256, DecodeValue, Meant;
    var k := FieldSize(code);
    IntegerMeant(Field(code, LittleBytes(n, k)));
    hide Range;
    if Range(code).value.0 < 0 { SignedBytes(n, k); } else { UnsignedBytes(n, k); }
  }

  /** And whatever its bytes are, a field holds an integer in range. */
  lemma FieldInRange(f: Field) returns (n: int)
    requires Range(f.code).Some? && |f.raw| == FieldSize(f.code)
    ensures Range(f.code).value.0 <= n <= Range(f.code).value.1 && DecodeValue(f) == Meant(f.code, n)
  {
    RangeIsWhole(f.code);
    hide FieldSize, Pow256, Unsigned, Signed, DecodeValue, Meant;
    IntegerMeant(f);
    UnsignedBelow(f.raw);
    SignedBelow(f.raw);
    hide Range;
    n := if Range(f.code).value.0 < 0 then Signed(f.raw) else Unsigned(f.raw);
  }

  lemma SignedBelow(raw: seq<Byte>)
    requires raw != []
    ensures 0 <= 2 * Signed(raw) + Pow256(|raw|) < 2 * Pow256(|raw|)
  {
    UnsignedBelow(raw);
    HighBit(raw);
    hide Pow256, Unsigned;
  }

  function TextWidth(code: char): nat { if code == 'n' then 4 else if code == 'N' then 16 else 64 }

  /** Text of one-byte characters reads back when it fits its field, unless white space
      stands at an end of it. */
  lemma TextField(code: char, s: string)
    requires (code == 'n' || code == 'N' || code == 'Z') && FieldText(s) && |s| <= TextWidth(code)
    ensures FieldSize(code) == TextWidth(code)
    ensures DecodeValue(Field(code, PadField(s, TextWidth(code)))) == Characters(s)
  {
    hide PadField, Trim, CString;
    var raw := PadField(s, TextWidth(code));
    assert raw[0..0 + |raw|] == raw;
    CStringPad(raw, 0, TextWidth(code), s);
  }

  /** 32 numbers of two bytes each, one after the other. */
  lemma ArrayField(raw: seq<Byte>, ns: seq<int>)
    requires |raw| == 64 && |ns| == 32
    requires forall i :: 0 <= i < 32 ==> -32768 <= ns[i] <= 32767 && raw[2 * i..2 * i + 2] == LittleBytes(ns[i], 2)
    ensures FieldSize('a') == 64 && DecodeValue(Field('a', raw)) == Array(ns)
  {
    hide LittleBytes, Signed, Pow256;
    Powers();
    forall i | 0 <= i < 32 ensures Int16s(raw)[i] == ns[i] { SignedBytes(ns[i], 2); }
  }

  /** A number of four or eight bytes keeps its bits. */
  lemma BitsField(code: char, bits: nat)
    requires (code == 'f' || code == 'd') && bits < if code == 'f' then 4294967296 else 18446744073709551616
    ensures DecodeValue(Field(code, LittleBytes(bits, FieldSize(code)))) == Bits(bits)
  {
    hide LittleBytes, Unsigned, Pow256;
    Powers();
    UnsignedBytes(bits, FieldSize(code));
  }

  // --------------------------------------------------------------------- a record

  /** A body written field by field: each part has the size of its column. */
  predicate Parts(g: Format, parts: seq<seq<Byte>>) {
    |parts| == |g.format| && forall k :: 0 <= k < |parts| ==> |parts[k]| == FieldSize(g.format[k])
  }

  lemma {:induction false} PartsBefore(g: Format, parts: seq<seq<Byte>>, k: nat)
    requires Parts(g, parts) && k <= |parts|
    ensures |Concat(parts[..k])| == Offset(g.format, k)
  {
    if k > 0 {
      PartsBefore(g, parts, k - 1);
      assert parts[..k][..k - 1] == parts[..k - 1];
    }
  }

  /** Each column of a body written field by field reads back as its own part. */
  lemma ColumnIsPart(g: Format, parts: seq<seq<Byte>>, fields: map<string, Field>, k: nat)
    requires Parts(g, parts) && k < |parts| && ColumnHolds(g, Concat(parts), fields, k)
    ensures ColumnName(g, k) in fields && fields[ColumnName(g, k)] == Field(g.format[k], parts[k])
  {
    hide FieldSize, ColumnName, Concat, Offset;
    PartsBefore(g, parts, k);
    PartsBefore(g, parts, k + 1);
    ConcatAppend(parts[..k], parts[k]);
    assert parts[..k + 1] == parts[..k] + [parts[k]];
    ConcatParts(parts[..k + 1], parts[k + 1..]);
    assert parts == parts[..k + 1] + parts[k + 1..];
    var front := Concat(parts[..k]);
    assert Concat(parts) == front + parts[k] + Concat(parts[k + 1..]);
  }
}

/** Option and Result values, and the string operations of the JavaScript
    library that the modelled code calls: decimal printing, trim, split, join. */
module Text {

  datatype Option<+T> = None | Some(value: T)

  datatype Result<+T> = Ok(value: T) | Err

  type Byte = b: int | 0 <= b < 256

  function DigitChar(d: nat): char
    requires d < 10
  {
    ('0' as int + d) as char
  }

  /** The digits of n, most significant first, as String(n) prints them. */
  function NatToString(n: nat): (s: string)
    ensures |s| > 0
    ensures forall c :: c in s ==> '0' <= c <= '9'
  {
    if n < 10 then [DigitChar(n)] else NatToString(n / 10) + [DigitChar(n % 10)]
  }

  lemma {:induction false} NatToStringInjective(a: nat, b: nat)
    requires NatToString(a) == NatToString(b)
    ensures a == b
  {
    var x, y := NatToString(a), NatToString(b);
    assert x[|x| - 1] == DigitChar(a % 10) && y[|y| - 1] == DigitChar(b % 10);
    assert a >= 10 ==> x[..|x| - 1] == NatToString(a / 10);
    assert b >= 10 ==> y[..|y| - 1] == NatToString(b / 10);
    if a >= 10 { NatToStringInjective(a / 10, b / 10); }
  }

  /** The white space of JavaScript's trim and of \s. */
  predicate IsSpace(c: char) {
    || c == ' ' || '\t' <= c <= '\r' || c == 0xA0 as char || c == 0x1680 as char
    || 0x2000 as char <= c <= 0x200A as char || c == 0x2028 as char || c == 0x2029 as char
    || c == 0x202F as char || c == 0x205F as char || c == 0x3000 as char || c == 0xFEFF as char
  }

  function TrimStart(s: string): (r: string)
    ensures |r| <= |s|
  {
    if s != [] && IsSpace(s[0]) then TrimStart(s[1..]) else s
  }

  function TrimEnd(s: string): (r: string)
    ensures |r| <= |s|
  {
    if s != [] && IsSpace(s[|s| - 1]) then TrimEnd(s[..|s| - 1]) else s
  }

  function Trim(s: string): string {
    TrimEnd(TrimStart(s))
  }

  /** WhiteSpace and LineTerminator of ECMAScript, sections 12.2 and 12.3. */
  lemma SpaceCodes(c: char)
    ensures var n := c as int;
            IsSpace(c) <==> n == 9 || n == 10 || n == 11 || n == 12 || n == 13 || n == 32 || n == 160 || n == 5760
                            || 8192 <= n <= 8202 || n == 8232 || n == 8233 || n == 8239 || n == 8287 || n == 12288
                            || n == 65279
  {
  }

  predicate Spaces(s: string) { forall i :: 0 <= i < |s| ==> IsSpace(s[i]) }

  lemma {:induction false} TrimStartIs(s: string) returns (k: nat)
    ensures k <= |s| && Spaces(s[..k]) && TrimStart(s) == s[k..] && (k < |s| ==> !IsSpace(s[k]))
  {
    hide IsSpace;
    if s != "" && IsSpace(s[0]) {
      var j := TrimStartIs(s[1..]);
      k := j + 1;
      assert s[..k] == [s[0]] + s[1..][..j] && s[1..][j..] == s[k..];
    } else {
      k := 0;
      assert s[0..] == s;
    }
  }

  lemma {:induction false} TrimEndIs(s: string) returns (k: nat)
    ensures k <= |s| && Spaces(s[k..]) && TrimEnd(s) == s[..k] && (k > 0 ==> !IsSpace(s[k - 1]))
  {
    hide IsSpace;
    var n := |s|;
    if s != "" && IsSpace(s[n - 1]) {
      k := TrimEndIs(s[..n - 1]);
      assert s[k..] == s[..n - 1][k..] + [s[n - 1]] && s[..n - 1][..k] == s[..k];
    } else {
      k := n;
      assert s[..n] == s;
    }
  }

  /** Trimming takes the white space at both ends and nothing else. */
  lemma TrimIs(s: string) returns (a: string, b: string)
    ensures s == a + Trim(s) + b && Spaces(a) && Spaces(b) && Trimmed(Trim(s))
  {
    hide IsSpace, Spaces, TrimStart, TrimEnd;
    var k := TrimStartIs(s);
    var rest := s[k..];
    var j := TrimEndIs(rest);
    a, b := s[..k], rest[j..];
    assert rest == rest[..j] + b;
    assert s == a + rest == a + (rest[..j] + b) == a + rest[..j] + b;
  }

  /** No white space at either end, so that trim leaves s alone. */
  predicate Trimmed(s: string) {
    s != [] ==> !IsSpace(s[0]) && !IsSpace(s[|s| - 1])
  }

  function Split(s: string, sep: char): (parts: seq<string>)
    ensures |parts| > 0
  {
    if s == [] then [[]]
    else
      var rest := Split(s[1..], sep);
      if s[0] == sep then [[]] + rest else [[s[0]] + rest[0]] + rest[1..]
  }

  function Join(parts: seq<string>, sep: char): string {
    if |parts| == 0 then []
    else if |parts| == 1 then parts[0]
    else parts[0] + [sep] + Join(parts[1..], sep)
  }

  lemma {:induction false} SplitPrefix(p: string, s: string, sep: char)
    requires sep !in p
    ensures Split(p + s, sep) == [p + Split(s, sep)[0]] + Split(s, sep)[1..]
  {
    if p == [] {
      assert p + s == s && p + Split(s, sep)[0] == Split(s, sep)[0];
    } else {
      assert (p + s)[1..] == p[1..] + s;
      SplitPrefix(p[1..], s, sep);
      assert [p[0]] + (p[1..] + Split(s, sep)[0]) == p + Split(s, sep)[0];
    }
  }

  /** Splitting undoes joining when no part holds the separator. */
  lemma {:induction false} SplitJoin(parts: seq<string>, sep: char)
    requires |parts| > 0
    requires forall i :: 0 <= i < |parts| ==> sep !in parts[i]
    ensures Split(Join(parts, sep), sep) == parts
  {
    if |parts| == 1 {
      SplitPrefix(parts[0], [], sep);
      assert parts[0] + [] == parts[0];
    } else {
      var rest := [sep] + Join(parts[1..], sep);
      SplitJoin(parts[1..], sep);
      assert rest[1..] == Join(parts[1..], sep);
      assert Split(rest, sep) == [[]] + parts[1..];
      SplitPrefix(parts[0], rest, sep);
      assert Join(parts, sep) == parts[0] + rest;
      assert parts[0] + [] == parts[0];
      assert parts == [parts[0]] + parts[1..];
    }
  }

  lemma TrimTrimmed(s: string)
    requires Trimmed(s)
    ensures Trim(s) == s
  {
  }

  /** A join of trimmed, non-empty parts starts and ends as its parts do. */
  lemma {:induction false} JoinTrimmed(parts: seq<string>, sep: char)
    requires forall i :: 0 <= i < |parts| ==> parts[i] != [] && Trimmed(parts[i])
    ensures Trimmed(Join(parts, sep))
    ensures parts != [] ==> Join(parts, sep) != [] && Join(parts, sep)[0] == parts[0][0]
    ensures parts != [] ==> !IsSpace(Join(parts, sep)[|Join(parts, sep)| - 1])
  {
    if |parts| > 1 {
      JoinTrimmed(parts[1..], sep);
      var tail := Join(parts[1..], sep);
      assert Join(parts, sep) == parts[0] + [sep] + tail;
      assert Join(parts, sep)[|Join(parts, sep)| - 1] == tail[|tail| - 1];
      assert Join(parts, sep)[0] == parts[0][0];
    }
  }

  lemma {:induction false} JoinChars(parts: seq<string>, sep: char, c: char)
    requires c in Join(parts, sep)
    ensures c == sep || exists i :: 0 <= i < |parts| && c in parts[i]
  {
    if |parts| > 1 && c !in parts[0] && c != sep {
      JoinChars(parts[1..], sep, c);
      var i :| 0 <= i < |parts| - 1 && c in parts[1..][i];
      assert c in parts[i + 1];
    }
  }

  /** Chunks of bytes one after the other. */
  function Concat(chunks: seq<seq<Byte>>): seq<Byte> {
    if chunks == [] then [] else Concat(chunks[..|chunks| - 1]) + chunks[|chunks| - 1]
  }

  lemma ConcatAppend(chunks: seq<seq<Byte>>, c: seq<Byte>)
    ensures Concat(chunks + [c]) == Concat(chunks) + c
  {
    assert (chunks + [c])[..|chunks|] == chunks;
  }

  lemma {:induction false} ConcatParts(a: seq<seq<Byte>>, b: seq<seq<Byte>>)
    ensures Concat(a + b) == Concat(a) + Concat(b)
  {
    hide Concat;
    if b == [] {
      ConcatOne([]);
      assert a + b == a;
    } else {
      var front, last := b[..|b| - 1], b[|b| - 1];
      ConcatParts(a, front);
      assert b == front + [last];
      ConcatAppend(front, last);
      assert a + b == a + front + [last];
      ConcatAppend(a + front, last);
    }
  }

  lemma ConcatOne(c: seq<Byte>)
    ensures Concat([c]) == c && Concat([]) == []
  {
    assert Concat([c]) == Concat([c][..0]) + c;
  }

  lemma ConcatFirst(chunks: seq<seq<Byte>>)
    ensures chunks != [] ==> Concat(chunks) == chunks[0] + Concat(chunks[1..])
    ensures |chunks| == 1 ==> Concat(chunks) == chunks[0]
    ensures Concat([]) == []
  {
    hide Concat;
    if chunks == [] {
      ConcatOne([]);
    } else {
      ConcatOne(chunks[0]);
      assert chunks == [chunks[0]] + chunks[1..];
      ConcatParts([chunks[0]], chunks[1..]);
    }
  }
}

/** What the tokenizer takes for a number or a name, and that it drops nothing. */
module ExpressionTokens {
  import opened Text
  import opened Expression
  import opened ExpressionGrammar

  // -------------------------------------------------------------------- numbers

  predicate AllDigits(s: string) { forall i :: 0 <= i < |s| ==> '0' <= s[i] <= '9' }

  /** Digits with at most one point among or beside them. */
  predicate MantissaText(s: string) {
    AllDigits(s) || exists k :: 0 <= k < |s| && PointAt(s, k)
  }

  predicate PointAt(s: string, k: nat)
    requires k < |s|
  {
    s[k] == '.' && AllDigits(s[..k]) && AllDigits(s[k + 1..])
  }

  /** e or E, a sign or none, and digits; or nothing. */
  predicate ExponentText(s: string) {
    || s == ""
    || (|s| >= 2 && (s[0] == 'e' || s[0] == 'E') && AllDigits(s[1..]))
    || (|s| >= 3 && (s[0] == 'e' || s[0] == 'E') && (s[1] == '+' || s[1] == '-') && AllDigits(s[2..]))
  }

  predicate NumberAt(s: string, m: nat)
    requires m <= |s|
  {
    MantissaText(s[..m]) && ExponentText(s[m..])
  }

  /** A mantissa, then an exponent or none. */
  predicate NumberText(s: string) { exists m: nat :: m <= |s| && NumberAt(s, m) }

  lemma {:induction false} DigitsAre(s: string, n: nat)
    requires n <= |s|
    ensures AllDigits(s[..n]) <==> n <= Digits(s)
  {
    if Digits(s) < n { assert s[..n][Digits(s)] == s[Digits(s)]; }
  }

  lemma MantissaIs(s: string, n: nat)
    requires n <= |s|
    ensures MantissaText(s[..MantissaLength(s)])
    ensures MantissaText(s[..n]) ==> n <= MantissaLength(s)
  {
    var d, m := Digits(s), MantissaLength(s);
    DigitsAre(s, d);
    if d < |s| && s[d] == '.' {
      var rest := s[d + 1..];
      DigitsAre(rest, Digits(rest));
      assert s[..m][..d] == s[..d] && s[..m][d + 1..] == rest[..Digits(rest)];
      assert PointAt(s[..m], d);
    }
    if MantissaText(s[..n]) { MantissaFits(s, n); }
  }

  lemma MantissaFits(s: string, n: nat)
    requires n <= |s| && MantissaText(s[..n])
    ensures n <= MantissaLength(s)
  {
    var d := Digits(s);
    if AllDigits(s[..n]) {
      DigitsAre(s, n);
    } else {
      var k :| 0 <= k < n && PointAt(s[..n], k);
      assert s[..n][..k] == s[..k] && s[..n][k + 1..] == s[k + 1..][..n - k - 1];
      DigitsAre(s, k);
      DigitsAre(s[k + 1..], n - k - 1);
      assert s[k] == '.' && k == d;
    }
  }

  lemma ExponentIs(s: string, n: nat)
    requires n <= |s|
    ensures ExponentText(s[..ExponentLength(s)])
    ensures ExponentText(s[..n]) ==> n <= ExponentLength(s)
  {
    if s != "" && (s[0] == 'e' || s[0] == 'E') {
      var sign := if |s| > 1 && (s[1] == '+' || s[1] == '-') then 2 else 1;
      var rest := s[sign..];
      var e := sign + Digits(rest);
      DigitsAre(rest, Digits(rest));
      assert s[..e][sign..] == rest[..Digits(rest)];
      if ExponentText(s[..n]) && n > 0 {
        var from := if AllDigits(s[..n][1..]) then 1 else 2;
        assert s[..n][from..] == s[from..][..n - from];
        DigitsAre(s[from..], n - from);
        assert from == sign by { assert n > 1; assert s[..n][1] == s[1]; assert from == 1 ==> s[..n][1..][0] == s[1]; }
      }
    }
  }

  /** The scanner takes the longest number there is. */
  lemma LongestNumber(s: string, n: nat)
    requires n <= |s|
    ensures NumberText(s[..NumberLength(s)])
    ensures NumberText(s[..n]) ==> n <= NumberLength(s)
  {
    hide MantissaLength, ExponentLength, MantissaText, ExponentText;
    var m := MantissaLength(s);
    var whole := s[..NumberLength(s)];
    MantissaIs(s, m);
    ExponentIs(s[m..], 0);
    assert whole[..m] == s[..m] && whole[m..] == s[m..][..ExponentLength(s[m..])];
    assert NumberAt(whole, m);
    if NumberText(s[..n]) {
      var k: nat :| k <= n && NumberAt(s[..n], k);
      assert s[..n][..k] == s[..k] && s[..n][k..] == s[k..][..n - k];
      MantissaIs(s, k);
      EndsAlike(s, k, n);
    }
  }

  /** With a shorter mantissa there is no exponent to follow it. */
  lemma EndsAlike(s: string, k: nat, n: nat)
    requires k <= n <= |s| && k <= MantissaLength(s) && ExponentText(s[k..][..n - k])
    ensures n <= NumberLength(s)
  {
    hide ExponentLength;
    var m := MantissaLength(s);
    assert k < n ==> s[k..][..n - k][0] == s[k];
    if k < m { MantissaCharacters(s, k); } else { ExponentIs(s[m..], n - m); }
  }

  lemma MantissaCharacters(s: string, k: nat)
    requires k < MantissaLength(s)
    ensures '0' <= s[k] <= '9' || s[k] == '.'
  {
    var d := Digits(s);
    if k > d { assert s[d + 1..][k - d - 1] == s[k]; }
  }

  // ---------------------------------------------------------------------- names

  /** Names are the words of letters, digits and underscores that no digit begins. */
  lemma NamesAreWords(s: string)
    ensures IsName(s)
            <==> && s != "" && !('0' <= s[0] <= '9')
                 && forall i :: 0 <= i < |s| ==>
                      'A' <= s[i] <= 'Z' || 'a' <= s[i] <= 'z' || '0' <= s[i] <= '9' || s[i] == '_'
  {
  }

  // ------------------------------------------------------------- nothing dropped

  function WithoutSpaces(s: string): string {
    if s == "" then "" else (if IsSpace(s[0]) then "" else [s[0]]) + WithoutSpaces(s[1..])
  }

  function Spelt(ts: seq<Token>): string {
    if ts == [] then "" else TokenText(ts[0]) + Spelt(ts[1..])
  }

  lemma {:induction false} SpacelessFront(s: string, n: nat)
    requires n <= |s| && forall i :: 0 <= i < n ==> !IsSpace(s[i])
    ensures WithoutSpaces(s) == s[..n] + WithoutSpaces(s[n..])
  {
    hide IsSpace;
    if n > 0 {
      SpacelessFront(s[1..], n - 1);
      assert s[..n] == [s[0]] + s[1..][..n - 1] && s[1..][n - 1..] == s[n..];
    } else {
      assert s[..0] == "" && s[0..] == s;
    }
  }

  lemma NumberHasNoSpace(s: string, i: nat)
    requires i < NumberLength(s)
    ensures !IsSpace(s[i])
  {
    var m := MantissaLength(s);
    if i < m {
      MantissaCharacters(s, i);
    } else {
      ExponentHasNoSpace(s[m..], i - m);
      assert s[m..][i - m] == s[i];
    }
  }

  lemma ExponentHasNoSpace(s: string, i: nat)
    requires i < ExponentLength(s)
    ensures !IsSpace(s[i])
  {
    var sign := if |s| > 1 && (s[1] == '+' || s[1] == '-') then 2 else 1;
    if i >= sign { assert s[sign..][i - sign] == s[i]; }
  }

  /** The tokens of an accepted text are numbers that are finite, names and symbols; they
      spell it out, but for its white space, and the end mark stands after them. */
  lemma {:induction false} TokensSpellText(s: string, finite: string -> bool)
    requires Tokens(s, finite).Ok?
    ensures var ts := Tokens(s, finite).value;
            && ts != [] && ts[|ts| - 1] == Eof && AllPrintable(ts[..|ts| - 1], finite)
            && Spelt(ts[..|ts| - 1]) == WithoutSpaces(s)
    decreases |s|
  {
    var ts := Tokens(s, finite).value;
    if s == "" {
      assert ts[..0] == [];
    } else if IsSpace(s[0]) {
      TokensSpellText(s[1..], finite);
    } else {
      var n := FirstToken(s, finite);
      hide NumberLength, IdentLength, IsSpace, Printable;
      TokensSpellText(s[n..], finite);
      var rest := Tokens(s[n..], finite).value;
      SpacelessFront(s, n);
      assert ts[..|ts| - 1] == [ts[0]] + rest[..|rest| - 1];
      assert Spelt(ts[..|ts| - 1]) == s[..n] + Spelt(rest[..|rest| - 1]);
    }
  }

  /** The number at the front of s, taken by itself. */
  lemma NumberAlone(s: string)
    requires StartsNumber(s)
    ensures var n := NumberLength(s); n > 0 && StartsNumber(s[..n]) && NumberLength(s[..n]) == n
  {
    var n := NumberLength(s);
    NumberIsNonEmpty(s);
    LongestNumber(s, n);
    LongestNumber(s[..n], n);
    assert s[..n][..n] == s[..n];
    StartsLong(s);
  }

  lemma StartsLong(s: string)
    requires StartsNumber(s)
    ensures s[0] == '.' ==> NumberLength(s) >= 2
  {
    if s[0] == '.' { assert s[1..][0] == s[1]; }
  }

  lemma NameAlone(s: string)
    requires s != "" && IsIdentStart(s[0])
    ensures var n := 1 + IdentLength(s[1..]); IsName(s[..n])
  {
    var n := 1 + IdentLength(s[1..]);
    forall i | 0 <= i < n ensures IsIdentPart(s[..n][i]) { assert i > 0 ==> s[1..][i - 1] == s[i]; }
  }

  /** No more of tail belongs to the token. */
  predicate EndsBefore(t: Token, tail: string) {
    match t
    case Number(literal) => NumberLength(literal + tail) == |literal|
    case Ident(_) => tail == "" || !IsIdentPart(tail[0])
    case Symbol(c) => c == '.' ==> tail == "" || !IsDigit(tail[0])
    case Eof => true
  }

  /** A token at the front of a text is taken, whatever comes after it, if that does not
      make it longer. */
  lemma TokenTaken(t: Token, tail: string, finite: string -> bool)
    requires Printable(t, finite) && EndsBefore(t, tail)
    ensures Tokens(TokenText(t) + tail, finite) == Push(t, Tokens(tail, finite))
  {
    hide Push, NumberLength, IdentLength, ExponentLength, MantissaLength, Digits;
    var text := TokenText(t);
    var s := text + tail;
    assert s[|text|..] == tail && s[..|text|] == text;
    match t
    case Number(literal) => assert StartsNumber(s) by { assert s[0] == text[0] && (|text| > 1 ==> s[1] == text[1]); }
    case Ident(name) =>
      assert s[1..] == name[1..] + tail;
      IdentStop(name[1..], tail);
      NameLength(name);
    case Symbol(_) =>
  }

  lemma FirstToken(s: string, finite: string -> bool) returns (n: nat)
    requires s != "" && !IsSpace(s[0]) && Tokens(s, finite).Ok?
    ensures 0 < n <= |s| && forall i :: 0 <= i < n ==> !IsSpace(s[i])
    ensures Tokens(s[n..], finite).Ok? && Tokens(s, finite).value != []
    ensures var t := Tokens(s, finite).value[0];
            && Printable(t, finite) && TokenText(t) == s[..n]
            && Tokens(s, finite).value == [t] + Tokens(s[n..], finite).value
  {
    hide NumberLength, IdentLength;
    if StartsNumber(s) {
      NumberIsNonEmpty(s);
      n := NumberLength(s);
      NumberAlone(s);
      forall i | 0 <= i < n ensures !IsSpace(s[i]) { NumberHasNoSpace(s, i); }
    } else if IsSymbol(s[0]) {
      n := 1;
    } else {
      n := 1 + IdentLength(s[1..]);
      NameAlone(s);
      forall i | 1 <= i < n ensures !IsSpace(s[i]) { assert IsIdentPart(s[1..][i - 1]); }
    }
  }
}

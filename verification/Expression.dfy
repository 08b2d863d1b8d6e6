/** Derived log expressions (src/data/log-query/expression.ts): tokenizer, parser,
    reference collection and evaluation.

    A number token keeps its source text; what number that text denotes is left to
    the evaluator. */
module Expression {
  import opened Text

  datatype Op = Add | Sub | Mul | Div

  datatype Expr =
    | Num(literal: string)
    | Ref(message: string, field: string)
    | Unary(negate: bool, arg: Expr)
    | Binary(op: Op, left: Expr, right: Expr)

  datatype Token = Number(literal: string) | Ident(name: string) | Symbol(c: char) | Eof

  // ---------------------------------------------------------------- tokenizer

  predicate IsDigit(c: char) { '0' <= c <= '9' }

  predicate IsIdentStart(c: char) { 'A' <= c <= 'Z' || 'a' <= c <= 'z' || c == '_' }

  predicate IsIdentPart(c: char) { IsIdentStart(c) || IsDigit(c) }

  predicate IsSymbol(c: char) { c in "+-*/()." }

  /** How many characters at the front of s are digits. */
  function Digits(s: string): (n: nat)
    ensures n <= |s|
    ensures forall i :: 0 <= i < n ==> IsDigit(s[i])
    ensures n < |s| ==> !IsDigit(s[n])
  {
    if s == [] || !IsDigit(s[0]) then 0 else 1 + Digits(s[1..])
  }

  function IdentLength(s: string): (n: nat)
    ensures n <= |s|
    ensures forall i :: 0 <= i < n ==> IsIdentPart(s[i])
    ensures n < |s| ==> !IsIdentPart(s[n])
  {
    if s == [] || !IsIdentPart(s[0]) then 0 else 1 + IdentLength(s[1..])
  }

  /** Whole and fractional digits. */
  function MantissaLength(s: string): (n: nat)
    ensures n <= |s|
  {
    var whole := Digits(s);
    if whole < |s| && s[whole] == '.' then whole + 1 + Digits(s[whole + 1..]) else whole
  }

  /** The exponent part, or nothing when it has no digits. */
  function ExponentLength(s: string): (n: nat)
    ensures n <= |s|
  {
    if s == [] || (s[0] != 'e' && s[0] != 'E') then 0
    else
      var sign := if |s| > 1 && (s[1] == '+' || s[1] == '-') then 2 else 1;
      var digits := Digits(s[sign..]);
      if digits == 0 then 0 else sign + digits
  }

  function NumberLength(s: string): (n: nat)
    ensures n <= |s|
  {
    MantissaLength(s) + ExponentLength(s[MantissaLength(s)..])
  }

  predicate StartsNumber(s: string) {
    s != [] && (IsDigit(s[0]) || (s[0] == '.' && |s| > 1 && IsDigit(s[1])))
  }

  lemma NumberIsNonEmpty(s: string)
    requires StartsNumber(s)
    ensures NumberLength(s) > 0
  {
  }

  /** The tokens of s. finite says which literals are finite numbers; the source
      rejects the others. */
  function Tokens(s: string, finite: string -> bool): Result<seq<Token>>
    decreases |s|
  {
    if s == [] then Ok([Eof])
    else if IsSpace(s[0]) then Tokens(s[1..], finite)
    else if StartsNumber(s) then
      NumberIsNonEmpty(s);
      var n := NumberLength(s);
      if finite(s[..n]) then Push(Number(s[..n]), Tokens(s[n..], finite)) else Err
    else if IsSymbol(s[0]) then Push(Symbol(s[0]), Tokens(s[1..], finite))
    else if IsIdentStart(s[0]) then
      var n := 1 + IdentLength(s[1..]);
      Push(Ident(s[..n]), Tokens(s[n..], finite))
    else Err
  }

  function Push(t: Token, rest: Result<seq<Token>>): Result<seq<Token>> {
    if rest.Ok? then Ok([t] + rest.value) else Err
  }

  method ScanDigits(input: string, start: nat) returns (end: nat)
    requires start <= |input|
    ensures end == start + Digits(input[start..])
  {
    end := start;
    while end < |input| && IsDigit(input[end])
      invariant start <= end <= |input|
      invariant start + Digits(input[start..]) == end + Digits(input[end..])
    {
      end := end + 1;
    }
  }

  method ScanMantissa(input: string, start: nat) returns (end: nat)
    requires start <= |input|
    ensures end == start + MantissaLength(input[start..])
  {
    hide Digits;
    end := ScanDigits(input, start);
    if end < |input| && input[end] == '.' {
      assert input[start..][end - start + 1..] == input[end + 1..];
      end := ScanDigits(input, end + 1);
    }
  }

  method ScanNumber(input: string, start: nat) returns (end: nat)
    requires start <= |input|
    ensures end == start + NumberLength(input[start..])
  {
    hide Digits, MantissaLength;
    end := ScanMantissa(input, start);
    assert input[start..][end - start..] == input[end..];
    if end < |input| && (input[end] == 'e' || input[end] == 'E') {
      var exponent := end + 1;
      if exponent < |input| && (input[exponent] == '+' || input[exponent] == '-') { exponent := exponent + 1; }
      assert input[end..][exponent - end..] == input[exponent..];
      var last := ScanDigits(input, exponent);
      if last > exponent { end := last; }
    }
  }

  /** What remains to be tokenized, after the tokens found so far. */
  function Resume(tokens: seq<Token>, rest: Result<seq<Token>>): Result<seq<Token>> {
    if rest.Ok? then Ok(tokens + rest.value) else Err
  }

  lemma ResumePush(tokens: seq<Token>, t: Token, rest: Result<seq<Token>>)
    ensures Resume(tokens, Push(t, rest)) == Resume(tokens + [t], rest)
    ensures Resume([], rest) == rest
  {
    if rest.Ok? {
      assert tokens + ([t] + rest.value) == tokens + [t] + rest.value;
      assert [] + rest.value == rest.value;
    }
  }

  method ScanIdent(input: string, start: nat) returns (end: nat)
    requires start < |input|
    ensures end == start + 1 + IdentLength(input[start..][1..])
  {
    end := start + 1;
    assert input[start..][1..] == input[start + 1..];
    while end < |input| && IsIdentPart(input[end])
      invariant start < end <= |input|
      invariant start + 1 + IdentLength(input[start + 1..]) == end + IdentLength(input[end..])
    {
      end := end + 1;
    }
  }

  method Tokenize(input: string, finite: string -> bool) returns (r: Result<seq<Token>>)
    ensures r == Tokens(input, finite)
  {
    hide NumberLength, IdentLength, Resume, Push;
    var tokens: seq<Token> := [];
    var index := 0;
    assert input[0..] == input;
    ResumePush([], Eof, Tokens(input, finite));
    while index < |input|
      invariant index <= |input|
      invariant Tokens(input, finite) == Resume(tokens, Tokens(input[index..], finite))
    {
      ghost var s := input[index..];
      var c := input[index];
      var end := index + 1;
      if IsSpace(c) {
        assert s[1..] == input[end..];
      } else {
        var token;
        if IsDigit(c) || (c == '.' && index + 1 < |input| && IsDigit(input[index + 1])) {
          NumberIsNonEmpty(s);
          end := ScanNumber(input, index);
          token := Number(input[index..end]);
          assert input[index..end] == s[..end - index];
          if !finite(input[index..end]) {
            FailedResume(tokens);
            return Err;
          }
        } else if IsSymbol(c) {
          token := Symbol(c);
        } else if IsIdentStart(c) {
          end := ScanIdent(input, index);
          token := Ident(input[index..end]);
        } else {
          FailedResume(tokens);
          return Err;
        }
        assert input[index..end] == s[..end - index] && s[end - index..] == input[end..];
        assert Tokens(s, finite) == Push(token, Tokens(input[end..], finite));
        ResumePush(tokens, token, Tokens(input[end..], finite));
        tokens := tokens + [token];
      }
      index := end;
    }
    LastResume(tokens);
    return Ok(tokens + [Eof]);
  }

  lemma FailedResume(tokens: seq<Token>)
    ensures Resume(tokens, Err).Err?
  {
  }

  lemma LastResume(tokens: seq<Token>)
    ensures Resume(tokens, Ok([Eof])) == Ok(tokens + [Eof])
  {
  }

  // -------------------------------------------------------------------- parser

  function Peek(ts: seq<Token>, i: nat): Token {
    if i < |ts| then ts[i] else Eof
  }

  predicate At(ts: seq<Token>, i: nat, c: char) {
    Peek(ts, i) == Symbol(c)
  }

  /** A tree and the index after its last token. */
  datatype Parsed = Parsed(expr: Expr, next: nat)

  function ParseSum(ts: seq<Token>, i: nat): (r: Result<Parsed>)
    ensures r.Ok? ==> i < r.value.next <= |ts|
    decreases |ts| - i, 3
  {
    var first := ParseProduct(ts, i);
    if first.Err? then Err else SumTail(ts, first.value)
  }

  function SumTail(ts: seq<Token>, acc: Parsed): (r: Result<Parsed>)
    requires acc.next <= |ts|
    ensures r.Ok? ==> acc.next <= r.value.next <= |ts|
    decreases |ts| - acc.next, 4
  {
    if !At(ts, acc.next, '+') && !At(ts, acc.next, '-') then Ok(acc)
    else
      var right := ParseProduct(ts, acc.next + 1);
      if right.Err? then Err
      else
        var op := if At(ts, acc.next, '+') then Add else Sub;
        SumTail(ts, Parsed(Binary(op, acc.expr, right.value.expr), right.value.next))
  }

  function ParseProduct(ts: seq<Token>, i: nat): (r: Result<Parsed>)
    ensures r.Ok? ==> i < r.value.next <= |ts|
    decreases |ts| - i, 2
  {
    var first := ParseUnary(ts, i);
    if first.Err? then Err else ProductTail(ts, first.value)
  }

  function ProductTail(ts: seq<Token>, acc: Parsed): (r: Result<Parsed>)
    requires acc.next <= |ts|
    ensures r.Ok? ==> acc.next <= r.value.next <= |ts|
    decreases |ts| - acc.next, 4
  {
    if !At(ts, acc.next, '*') && !At(ts, acc.next, '/') then Ok(acc)
    else
      var right := ParseUnary(ts, acc.next + 1);
      if right.Err? then Err
      else
        var op := if At(ts, acc.next, '*') then Mul else Div;
        ProductTail(ts, Parsed(Binary(op, acc.expr, right.value.expr), right.value.next))
  }

  function ParseUnary(ts: seq<Token>, i: nat): (r: Result<Parsed>)
    ensures r.Ok? ==> i < r.value.next <= |ts|
    decreases |ts| - i, 1
  {
    if At(ts, i, '+') || At(ts, i, '-') then
      var arg := ParseUnary(ts, i + 1);
      if arg.Err? then Err else Ok(Parsed(Unary(At(ts, i, '-'), arg.value.expr), arg.value.next))
    else ParsePrimary(ts, i)
  }

  function ParsePrimary(ts: seq<Token>, i: nat): (r: Result<Parsed>)
    ensures r.Ok? ==> i < r.value.next <= |ts|
    decreases |ts| - i, 0
  {
    match Peek(ts, i)
    case Number(literal) => Ok(Parsed(Num(literal), i + 1))
    case Ident(message) =>
      if At(ts, i + 1, '.') && Peek(ts, i + 2).Ident? then Ok(Parsed(Ref(message, Peek(ts, i + 2).name), i + 3))
      else Err
    case Symbol(c) =>
      if c != '(' then Err
      else
        var inner := ParseSum(ts, i + 1);
        if inner.Ok? && At(ts, inner.value.next, ')') then Ok(Parsed(inner.value.expr, inner.value.next + 1)) else Err
    case Eof => Err
  }

  /** parse, then expect the end. */
  function ParseTokens(ts: seq<Token>): Result<Expr> {
    var r := ParseSum(ts, 0);
    if r.Ok? && Peek(ts, r.value.next).Eof? then Ok(r.value.expr) else Err
  }

  function ParseText(input: string, finite: string -> bool): Result<Expr> {
    var ts := Tokens(input, finite);
    if ts.Err? then Err else ParseTokens(ts.value)
  }

  class Parser {
    const tokens: seq<Token>
    var index: nat

    constructor (tokens: seq<Token>)
      ensures this.tokens == tokens && index == 0
    {
      this.tokens := tokens;
      index := 0;
    }

    /** The outcome of a parsing method that was called at position i. */
    ghost predicate Did(r: Result<Expr>, spec: Result<Parsed>)
      reads this
    {
      if spec.Err? then r.Err? else r == Ok(spec.value.expr) && index == spec.value.next
    }

    method MatchSymbol(c: char) returns (matched: bool)
      modifies this
      ensures matched == At(tokens, old(index), c)
      ensures index == if matched then old(index) + 1 else old(index)
    {
      if !At(tokens, index, c) { return false; }
      index := index + 1;
      return true;
    }

    method Advance() returns (t: Token)
      modifies this
      ensures t == Peek(tokens, old(index)) && index == old(index) + 1
    {
      t := Peek(tokens, index);
      index := index + 1;
    }

    method ParseAdditive() returns (r: Result<Expr>)
      modifies this
      ensures Did(r, ParseSum(tokens, old(index)))
      decreases |tokens| - index, 3
    {
      ghost var whole := ParseSum(tokens, index);
      r := ParseMultiplicative();
      while r.Ok?
        invariant r.Ok? ==> old(index) < index <= |tokens| && whole == SumTail(tokens, Parsed(r.value, index))
        invariant r.Err? ==> whole.Err?
        decreases r.Ok?, |tokens| - index
      {
        var left := r.value;
        var plus := MatchSymbol('+');
        var minus := false;
        if !plus { minus := MatchSymbol('-'); }
        if !plus && !minus { return Ok(left); }
        r := ParseMultiplicative();
        if r.Ok? { r := Ok(Binary(if plus then Add else Sub, left, r.value)); }
      }
    }

    method ParseMultiplicative() returns (r: Result<Expr>)
      modifies this
      ensures Did(r, ParseProduct(tokens, old(index)))
      decreases |tokens| - index, 2
    {
      ghost var whole := ParseProduct(tokens, index);
      r := ParseSigned();
      while r.Ok?
        invariant r.Ok? ==> old(index) < index <= |tokens| && whole == ProductTail(tokens, Parsed(r.value, index))
        invariant r.Err? ==> whole.Err?
        decreases r.Ok?, |tokens| - index
      {
        var left := r.value;
        var times := MatchSymbol('*');
        var over := false;
        if !times { over := MatchSymbol('/'); }
        if !times && !over { return Ok(left); }
        r := ParseSigned();
        if r.Ok? { r := Ok(Binary(if times then Mul else Div, left, r.value)); }
      }
    }

    method ParseSigned() returns (r: Result<Expr>)
      modifies this
      ensures Did(r, ParseUnary(tokens, old(index)))
      decreases |tokens| - index, 1
    {
      var plus := MatchSymbol('+');
      var minus := false;
      if !plus { minus := MatchSymbol('-'); }
      if plus || minus {
        r := ParseSigned();
        return if r.Ok? then Ok(Unary(minus, r.value)) else Err;
      }
      r := ParseAtom();
    }

    method ParseAtom() returns (r: Result<Expr>)
      modifies this
      ensures Did(r, ParsePrimary(tokens, old(index)))
      decreases |tokens| - index, 0
    {
      var t := Advance();
      match t
      case Number(literal) => return Ok(Num(literal));
      case Ident(message) =>
        var dot := MatchSymbol('.');
        if !dot { return Err; }
        var field := Advance();
        return if field.Ident? then Ok(Ref(message, field.name)) else Err;
      case Symbol(c) =>
        if c != '(' { return Err; }
        r := ParseAdditive();
        if r.Err? { return; }
        var closed := MatchSymbol(')');
        return if closed then r else Err;
      case Eof => return Err;
    }

    method ParseAll() returns (r: Result<Expr>)
      requires index == 0
      modifies this
      ensures r == ParseTokens(tokens)
    {
      r := ParseAdditive();
      if r.Ok? && !Peek(tokens, index).Eof? { r := Err; }
    }
  }

  /** parseExpression. */
  method ParseExpression(input: string, finite: string -> bool) returns (r: Result<Expr>)
    ensures r == ParseText(input, finite)
  {
    var ts := Tokenize(input, finite);
    if ts.Err? { return Err; }
    var parser := new Parser(ts.value);
    r := parser.ParseAll();
  }

  // ------------------------------------------------- references and evaluation

  datatype SeriesRef = SeriesRef(message: string, field: string)

  /** Every reference in e, left to right. */
  function References(e: Expr): seq<SeriesRef> {
    match e
    case Num(_) => []
    case Ref(message, field) => [SeriesRef(message, field)]
    case Unary(_, arg) => References(arg)
    case Binary(_, left, right) => References(left) + References(right)
  }

  /** Add to out the elements of refs it does not have yet, in order. */
  function AddNew(out: seq<SeriesRef>, refs: seq<SeriesRef>): seq<SeriesRef>
    decreases |refs|
  {
    if refs == [] then out
    else AddNew(if refs[0] in out then out else out + [refs[0]], refs[1..])
  }

  lemma {:induction false} AddNewTwice(out: seq<SeriesRef>, a: seq<SeriesRef>, b: seq<SeriesRef>)
    ensures AddNew(out, a + b) == AddNew(AddNew(out, a), b)
    decreases |a|
  {
    if a == [] {
      assert a + b == b;
    } else {
      assert (a + b)[1..] == a[1..] + b;
      AddNewTwice(if a[0] in out then out else out + [a[0]], a[1..], b);
    }
  }

  method Visit(e: Expr, out: seq<SeriesRef>, seen: set<SeriesRef>) returns (out': seq<SeriesRef>, seen': set<SeriesRef>)
    requires seen == set r | r in out
    ensures out' == AddNew(out, References(e)) && seen' == set r | r in out'
  {
    match e
    case Num(_) => return out, seen;
    case Ref(message, field) =>
      var r := SeriesRef(message, field);
      if r in seen { return out, seen; }
      assert AddNew(out, [r]) == AddNew(out + [r], []);
      return out + [r], seen + {r};
    case Unary(_, arg) => out', seen' := Visit(arg, out, seen);
    case Binary(_, left, right) =>
      AddNewTwice(out, References(left), References(right));
      out', seen' := Visit(left, out, seen);
      out', seen' := Visit(right, out', seen');
  }

  method CollectSeriesRefs(e: Expr) returns (out: seq<SeriesRef>)
    ensures out == AddNew([], References(e))
  {
    var seen;
    out, seen := Visit(e, [], {});
  }

  /** The first place a reference appears. */
  function FirstUse(refs: seq<SeriesRef>, r: SeriesRef): (i: nat)
    ensures i <= |refs|
    ensures r in refs <==> i < |refs|
    ensures i < |refs| ==> refs[i] == r
  {
    if refs == [] || refs[0] == r then 0 else 1 + FirstUse(refs[1..], r)
  }

  lemma {:induction false} AddNewIsFirstUse(out: seq<SeriesRef>, refs: seq<SeriesRef>)
    ensures var all := AddNew(out, refs);
            && out <= all
            && (forall r :: r in all <==> r in out || r in refs)
            && (forall i, j :: |out| <= i < j < |all| ==> FirstUse(refs, all[i]) < FirstUse(refs, all[j]))
            && (forall i :: |out| <= i < |all| ==> all[i] !in out)
    decreases |refs|
  {
    if refs != [] {
      var next := if refs[0] in out then out else out + [refs[0]];
      AddNewIsFirstUse(next, refs[1..]);
      var all := AddNew(out, refs);
      forall i, j | |out| <= i < j < |all| ensures FirstUse(refs, all[i]) < FirstUse(refs, all[j]) {
        assert all[j] !in next;
        if i >= |next| { assert all[i] !in next; }
      }
    }
  }

  /** collectSeriesRefs: exactly the references used, once each, by first use. */
  lemma RefsByFirstUse(e: Expr)
    ensures var all := AddNew([], References(e));
            && (forall r :: r in all <==> r in References(e))
            && (forall i, j :: 0 <= i < j < |all| ==> FirstUse(References(e), all[i]) < FirstUse(References(e), all[j]))
  {
    AddNewIsFirstUse([], References(e));
  }

  /** Evaluation over any number type, given its operations. */
  function Evaluate<V>(e: Expr, number: string -> V, resolve: (string, string) -> V,
                       negate: V -> V, apply: (Op, V, V) -> V): V
  {
    match e
    case Num(literal) => number(literal)
    case Ref(message, field) => resolve(message, field)
    case Unary(neg, arg) =>
      var v := Evaluate(arg, number, resolve, negate, apply);
      if neg then negate(v) else v
    case Binary(op, left, right) =>
      apply(op, Evaluate(left, number, resolve, negate, apply), Evaluate(right, number, resolve, negate, apply))
  }

  /** The value depends on the collected references only, so a lookup that holds
      those never fails to resolve one. */
  lemma {:induction false} EvaluateDependsOnRefs<V>(e: Expr, number: string -> V, f: (string, string) -> V,
                                 g: (string, string) -> V, negate: V -> V, apply: (Op, V, V) -> V)
    requires forall r :: r in References(e) ==> f(r.message, r.field) == g(r.message, r.field)
    ensures Evaluate(e, number, f, negate, apply) == Evaluate(e, number, g, negate, apply)
  {
    match e
    case Num(_) =>
    case Ref(message, field) => assert SeriesRef(message, field) in References(e);
    case Unary(_, arg) => EvaluateDependsOnRefs(arg, number, f, g, negate, apply);
    case Binary(_, left, right) =>
      EvaluateDependsOnRefs(left, number, f, g, negate, apply);
      EvaluateDependsOnRefs(right, number, f, g, negate, apply);
  }
}

/** The grammar of derived expressions and its printer: the parser accepts exactly
    the grammar, gives each sentence its one tree, and undoes printing. */
module ExpressionGrammar {
  import opened Text
  import opened Expression

  // ------------------------------------------------------------------- grammar

  /** Derivations. Sums and products lean left. */
  datatype Atom = ANum(literal: string) | ARef(message: string, field: string) | AParen(inner: Sum)

  datatype Signed = SSign(negate: bool, arg: Signed) | SAtom(atom: Atom)

  datatype Product = POne(one: Signed) | PTimes(left: Product, over: bool, right: Signed)

  datatype Sum = SumOne(one: Product) | SumPlus(left: Sum, minus: bool, right: Product)

  function AtomTokens(a: Atom): seq<Token> {
    match a
    case ANum(literal) => [Number(literal)]
    case ARef(message, field) => [Ident(message), Symbol('.'), Ident(field)]
    case AParen(inner) => [Symbol('(')] + SumTokens(inner) + [Symbol(')')]
  }

  function SignedTokens(s: Signed): seq<Token> {
    match s
    case SSign(negate, arg) => [Symbol(if negate then '-' else '+')] + SignedTokens(arg)
    case SAtom(atom) => AtomTokens(atom)
  }

  function ProductTokens(p: Product): seq<Token> {
    match p
    case POne(one) => SignedTokens(one)
    case PTimes(left, over, right) => ProductTokens(left) + [Symbol(if over then '/' else '*')] + SignedTokens(right)
  }

  /** The sentence a derivation derives. */
  function SumTokens(s: Sum): seq<Token> {
    match s
    case SumOne(one) => ProductTokens(one)
    case SumPlus(left, minus, right) => SumTokens(left) + [Symbol(if minus then '-' else '+')] + ProductTokens(right)
  }

  function AtomTree(a: Atom): Expr {
    match a
    case ANum(literal) => Num(literal)
    case ARef(message, field) => Ref(message, field)
    case AParen(inner) => SumTree(inner)
  }

  function SignedTree(s: Signed): Expr {
    match s
    case SSign(negate, arg) => Unary(negate, SignedTree(arg))
    case SAtom(atom) => AtomTree(atom)
  }

  function ProductTree(p: Product): Expr {
    match p
    case POne(one) => SignedTree(one)
    case PTimes(left, over, right) => Binary(if over then Div else Mul, ProductTree(left), SignedTree(right))
  }

  /** The expression a derivation stands for. */
  function SumTree(s: Sum): Expr {
    match s
    case SumOne(one) => ProductTree(one)
    case SumPlus(left, minus, right) => Binary(if minus then Sub else Add, SumTree(left), ProductTree(right))
  }

  // -------------------------------------------------- the parser accepts it all

  /** words stand in ts from i on. */
  predicate StandsAt(ts: seq<Token>, i: nat, words: seq<Token>) {
    i + |words| <= |ts| && ts[i..i + |words|] == words
  }

  lemma StandsSplit(ts: seq<Token>, i: nat, a: seq<Token>, b: seq<Token>)
    ensures StandsAt(ts, i, a + b) <==> StandsAt(ts, i, a) && StandsAt(ts, i + |a|, b)
  {
    if i + |a| + |b| <= |ts| {
      var w := ts[i..i + |a| + |b|];
      assert ts[i..i + |a|] == w[..|a|] && ts[i + |a|..i + |a| + |b|] == w[|a|..];
      assert w == w[..|a|] + w[|a|..];
    }
  }

  lemma StandsOne(ts: seq<Token>, i: nat, t: Token)
    ensures StandsAt(ts, i, [t]) <==> i < |ts| && ts[i] == t
  {
  }

  lemma StandsJoined(ts: seq<Token>, i: nat, a: seq<Token>, t: Token, b: seq<Token>)
    ensures StandsAt(ts, i, a + [t] + b)
            <==> StandsAt(ts, i, a) && i + |a| < |ts| && ts[i + |a|] == t && StandsAt(ts, i + |a| + 1, b)
  {
    StandsSplit(ts, i, a + [t], b);
    StandsSplit(ts, i, a, [t]);
    StandsOne(ts, i + |a|, t);
  }

  lemma {:induction false} ParsesAtom(ts: seq<Token>, i: nat, a: Atom)
    requires StandsAt(ts, i, AtomTokens(a))
    ensures ParsePrimary(ts, i) == Ok(Parsed(AtomTree(a), i + |AtomTokens(a)|))
    decreases a, 0
  {
    hide StandsAt, ParseSum, SumTokens, SumTree;
    match a
    case ANum(literal) => StandsOne(ts, i, Number(literal));
    case ARef(message, field) =>
      assert AtomTokens(a) == [Ident(message)] + [Symbol('.')] + [Ident(field)];
      StandsJoined(ts, i, [Ident(message)], Symbol('.'), [Ident(field)]);
      StandsOne(ts, i, Ident(message));
      StandsOne(ts, i + 2, Ident(field));
    case AParen(inner) =>
      StandsSplit(ts, i, [Symbol('(')] + SumTokens(inner), [Symbol(')')]);
      StandsSplit(ts, i, [Symbol('(')], SumTokens(inner));
      StandsOne(ts, i, Symbol('('));
      StandsOne(ts, i + 1 + |SumTokens(inner)|, Symbol(')'));
      ParsesSum(ts, i + 1, inner);
  }

  lemma {:induction false} ParsesSigned(ts: seq<Token>, i: nat, s: Signed)
    requires StandsAt(ts, i, SignedTokens(s))
    ensures ParseUnary(ts, i) == Ok(Parsed(SignedTree(s), i + |SignedTokens(s)|))
    decreases s, 1
  {
    match s
    case SSign(negate, arg) =>
      StandsSplit(ts, i, [Symbol(if negate then '-' else '+')], SignedTokens(arg));
      ParsesSigned(ts, i + 1, arg);
    case SAtom(atom) =>
      ParsesAtom(ts, i, atom);
  }

  /** The loop has swallowed the product and stands behind it. */
  lemma {:induction false} ParsesProduct(ts: seq<Token>, i: nat, p: Product)
    requires StandsAt(ts, i, ProductTokens(p))
    ensures ParseProduct(ts, i) == ProductTail(ts, Parsed(ProductTree(p), i + |ProductTokens(p)|))
    decreases p, 2
  {
    hide StandsAt, ParseUnary, SignedTokens, SignedTree;
    match p
    case POne(one) => ParsesSigned(ts, i, one);
    case PTimes(left, over, right) =>
      var front := ProductTokens(left);
      StandsJoined(ts, i, front, Symbol(if over then '/' else '*'), SignedTokens(right));
      ParsesProduct(ts, i, left);
      ParsesSigned(ts, i + |front| + 1, right);
  }

  predicate NoProductAt(ts: seq<Token>, i: nat) {
    !At(ts, i, '*') && !At(ts, i, '/')
  }

  lemma {:induction false} ParsesSum(ts: seq<Token>, i: nat, s: Sum)
    requires StandsAt(ts, i, SumTokens(s)) && NoProductAt(ts, i + |SumTokens(s)|)
    ensures ParseSum(ts, i) == SumTail(ts, Parsed(SumTree(s), i + |SumTokens(s)|))
    decreases s, 3
  {
    hide StandsAt, ParseUnary, ProductTokens, ProductTree;
    match s
    case SumOne(one) => ParsesProduct(ts, i, one);
    case SumPlus(left, minus, right) =>
      var front := SumTokens(left);
      StandsJoined(ts, i, front, Symbol(if minus then '-' else '+'), ProductTokens(right));
      ParsesProduct(ts, i + |front| + 1, right);
      SumTurn(ts, Parsed(SumTree(left), i + |front|),
              Parsed(ProductTree(right), i + |front| + 1 + |ProductTokens(right)|));
      hide SumTail, ParseProduct, ProductTail;
      ParsesSum(ts, i, left);
  }

  /** One turn of the sum loop. */
  lemma SumTurn(ts: seq<Token>, acc: Parsed, right: Parsed)
    requires acc.next < |ts| && (ts[acc.next] == Symbol('+') || ts[acc.next] == Symbol('-'))
    requires ParseProduct(ts, acc.next + 1) == Ok(right)
    ensures SumTail(ts, acc)
            == SumTail(ts, Parsed(Binary(if ts[acc.next] == Symbol('-') then Sub else Add, acc.expr, right.expr),
                                  right.next))
  {
    hide ParseProduct;
  }

  // ------------------------------------------------------- and nothing besides

  lemma {:induction false} FindAtom(ts: seq<Token>, i: nat) returns (a: Atom)
    requires ParsePrimary(ts, i).Ok?
    ensures var r := ParsePrimary(ts, i).value;
            AtomTree(a) == r.expr && StandsAt(ts, i, AtomTokens(a)) && i + |AtomTokens(a)| == r.next
    decreases |ts| - i, 0
  {
    match Peek(ts, i)
    case Number(literal) => a := ANum(literal);
    case Ident(message) =>
      a := ARef(message, Peek(ts, i + 2).name);
    case Symbol(c) =>
      var inner := FindSum(ts, i + 1);
      a := AParen(inner);
      StandsSplit(ts, i, [Symbol('(')], SumTokens(inner));
      StandsSplit(ts, i, [Symbol('(')] + SumTokens(inner), [Symbol(')')]);
  }

  lemma {:induction false} FindSigned(ts: seq<Token>, i: nat) returns (s: Signed)
    requires ParseUnary(ts, i).Ok?
    ensures var r := ParseUnary(ts, i).value;
            SignedTree(s) == r.expr && StandsAt(ts, i, SignedTokens(s)) && i + |SignedTokens(s)| == r.next
    decreases |ts| - i, 1
  {
    if At(ts, i, '+') || At(ts, i, '-') {
      var arg := FindSigned(ts, i + 1);
      s := SSign(At(ts, i, '-'), arg);
      StandsSplit(ts, i, [ts[i]], SignedTokens(arg));
    } else {
      var atom := FindAtom(ts, i);
      s := SAtom(atom);
    }
  }

  /** One turn of the product loop. */
  lemma ProductGoesOn(ts: seq<Token>, acc: Parsed)
    requires acc.next <= |ts| && ProductTail(ts, acc).Ok? && !NoProductAt(ts, acc.next)
    ensures acc.next < |ts| && ts[acc.next] == Symbol(if At(ts, acc.next, '*') then '*' else '/')
    ensures ParseUnary(ts, acc.next + 1).Ok?
    ensures var r := ParseUnary(ts, acc.next + 1).value;
            ProductTail(ts, acc)
            == ProductTail(ts, Parsed(Binary(if At(ts, acc.next, '*') then Mul else Div, acc.expr, r.expr), r.next))
  {
    hide ParseUnary;
  }

  lemma {:induction false} FindProductTail(ts: seq<Token>, i: nat, acc: Parsed, p: Product) returns (q: Product)
    requires acc.next <= |ts| && ProductTail(ts, acc).Ok?
    requires ProductTree(p) == acc.expr && StandsAt(ts, i, ProductTokens(p)) && i + |ProductTokens(p)| == acc.next
    ensures var r := ProductTail(ts, acc).value;
            ProductTree(q) == r.expr && StandsAt(ts, i, ProductTokens(q)) && i + |ProductTokens(q)| == r.next
    decreases |ts| - acc.next, 4
  {
    hide StandsAt, ParseUnary, SignedTokens, SignedTree;
    if NoProductAt(ts, acc.next) {
      q := p;
    } else {
      ProductGoesOn(ts, acc);
      hide ProductTail, NoProductAt;
      var over := !At(ts, acc.next, '*');
      var right := FindSigned(ts, acc.next + 1);
      var r := ParseUnary(ts, acc.next + 1).value;
      StandsJoined(ts, i, ProductTokens(p), Symbol(if over then '/' else '*'), SignedTokens(right));
      var longer := PTimes(p, over, right);
      assert ProductTree(longer) == Binary(if over then Div else Mul, acc.expr, r.expr);
      assert ProductTokens(longer)
          == ProductTokens(p) + [Symbol(if over then '/' else '*')] + SignedTokens(right);
      hide ProductTokens, ProductTree;
      q := FindProductTail(ts, i, Parsed(Binary(if over then Div else Mul, acc.expr, r.expr), r.next), longer);
    }
  }

  lemma {:induction false} FindProduct(ts: seq<Token>, i: nat) returns (p: Product)
    requires ParseProduct(ts, i).Ok?
    ensures var r := ParseProduct(ts, i).value;
            ProductTree(p) == r.expr && StandsAt(ts, i, ProductTokens(p)) && i + |ProductTokens(p)| == r.next
    decreases |ts| - i, 2
  {
    var first := FindSigned(ts, i);
    p := FindProductTail(ts, i, ParseUnary(ts, i).value, POne(first));
  }

  /** One turn of the sum loop. */
  lemma SumGoesOn(ts: seq<Token>, acc: Parsed)
    requires acc.next <= |ts| && SumTail(ts, acc).Ok? && (At(ts, acc.next, '+') || At(ts, acc.next, '-'))
    ensures acc.next < |ts| && ts[acc.next] == Symbol(if At(ts, acc.next, '+') then '+' else '-')
    ensures ParseProduct(ts, acc.next + 1).Ok?
    ensures var r := ParseProduct(ts, acc.next + 1).value;
            SumTail(ts, acc)
            == SumTail(ts, Parsed(Binary(if At(ts, acc.next, '+') then Add else Sub, acc.expr, r.expr), r.next))
  {
    hide ParseProduct;
  }

  lemma {:induction false} FindSumTail(ts: seq<Token>, i: nat, acc: Parsed, s: Sum) returns (q: Sum)
    requires acc.next <= |ts| && SumTail(ts, acc).Ok?
    requires SumTree(s) == acc.expr && StandsAt(ts, i, SumTokens(s)) && i + |SumTokens(s)| == acc.next
    ensures var r := SumTail(ts, acc).value;
            SumTree(q) == r.expr && StandsAt(ts, i, SumTokens(q)) && i + |SumTokens(q)| == r.next
    decreases |ts| - acc.next, 4
  {
    hide StandsAt, ParseProduct, ProductTokens, ProductTree;
    if !At(ts, acc.next, '+') && !At(ts, acc.next, '-') {
      q := s;
    } else {
      SumGoesOn(ts, acc);
      hide SumTail;
      var minus := !At(ts, acc.next, '+');
      var right := FindProduct(ts, acc.next + 1);
      var r := ParseProduct(ts, acc.next + 1).value;
      StandsJoined(ts, i, SumTokens(s), Symbol(if minus then '-' else '+'), ProductTokens(right));
      var longer := SumPlus(s, minus, right);
      assert SumTree(longer) == Binary(if minus then Sub else Add, acc.expr, r.expr);
      assert SumTokens(longer) == SumTokens(s) + [Symbol(if minus then '-' else '+')] + ProductTokens(right);
      hide SumTokens, SumTree;
      q := FindSumTail(ts, i, Parsed(Binary(if minus then Sub else Add, acc.expr, r.expr), r.next), longer);
    }
  }

  lemma {:induction false} FindSum(ts: seq<Token>, i: nat) returns (s: Sum)
    requires ParseSum(ts, i).Ok?
    ensures var r := ParseSum(ts, i).value;
            SumTree(s) == r.expr && StandsAt(ts, i, SumTokens(s)) && i + |SumTokens(s)| == r.next
    decreases |ts| - i, 3
  {
    var first := FindProduct(ts, i);
    s := FindSumTail(ts, i, ParseProduct(ts, i).value, SumOne(first));
  }

  predicate NoEof(ts: seq<Token>) {
    forall i :: 0 <= i < |ts| ==> !ts[i].Eof?
  }

  lemma EndIsEof(words: seq<Token>, n: nat)
    requires n <= |words| + 1
    ensures n > |words| ==> !NoEof((words + [Eof])[..n])
  {
    if n > |words| { assert (words + [Eof])[..n][|words|].Eof?; }
  }

  /** The parser accepts exactly the sentences of the grammar, with their tree. */
  lemma ParserIsGrammar(words: seq<Token>, e: Expr)
    requires NoEof(words)
    ensures ParseTokens(words + [Eof]) == Ok(e) <==> exists s: Sum :: SumTokens(s) == words && SumTree(s) == e
  {
    var ts := words + [Eof];
    if s: Sum :| SumTokens(s) == words && SumTree(s) == e {
      assert StandsAt(ts, 0, words);
      ParsesSum(ts, 0, s);
    }
    if ParseTokens(ts) == Ok(e) {
      var s := FindSum(ts, 0);
      var r := ParseSum(ts, 0).value;
      SumHasNoEof(s);
      var found := SumTokens(s);
      assert r.next >= |words| && found == ts[..r.next];
      EndIsEof(words, r.next);
      assert found == words;
    }
  }

  lemma {:induction false} AtomHasNoEof(a: Atom)
    ensures NoEof(AtomTokens(a))
    decreases a, 0
  {
    if a.AParen? { SumHasNoEof(a.inner); }
  }

  lemma {:induction false} SignedHasNoEof(s: Signed)
    ensures NoEof(SignedTokens(s))
    decreases s, 1
  {
    match s
    case SSign(_, arg) => SignedHasNoEof(arg);
    case SAtom(atom) => AtomHasNoEof(atom);
  }

  lemma {:induction false} ProductHasNoEof(p: Product)
    ensures NoEof(ProductTokens(p))
    decreases p, 2
  {
    match p
    case POne(one) => SignedHasNoEof(one);
    case PTimes(left, _, right) => ProductHasNoEof(left); SignedHasNoEof(right);
  }

  lemma {:induction false} SumHasNoEof(s: Sum)
    ensures NoEof(SumTokens(s))
    decreases s, 3
  {
    match s
    case SumOne(one) => ProductHasNoEof(one);
    case SumPlus(left, _, right) => SumHasNoEof(left); ProductHasNoEof(right);
  }

  /** No sentence has two trees. */
  lemma Unambiguous(s: Sum, t: Sum)
    requires SumTokens(s) == SumTokens(t)
    ensures SumTree(s) == SumTree(t)
  {
    SumHasNoEof(s);
    ParserIsGrammar(SumTokens(s), SumTree(s));
    ParserIsGrammar(SumTokens(s), SumTree(t));
  }

  // ------------------------------------------------------------------- printing

  /** The outermost rule an expression needs: 0 sum, 1 product, 2 sign, 3 atom. */
  function Rule(e: Expr): nat {
    match e
    case Binary(op, _, _) => if op.Add? || op.Sub? then 0 else 1
    case Unary(_, _) => 2
    case _ => 3
  }

  /** Print with parentheses only where the grammar asks for them. */
  function PrintSum(e: Expr): Sum
    decreases e, Rule(e)
  {
    if Rule(e) == 0 then SumPlus(PrintSum(e.left), e.op.Sub?, PrintProduct(e.right)) else SumOne(PrintProduct(e))
  }

  function PrintProduct(e: Expr): Product
    decreases e, (Rule(e) + 3) % 4
  {
    if Rule(e) == 1 then PTimes(PrintProduct(e.left), e.op.Div?, PrintSigned(e.right)) else POne(PrintSigned(e))
  }

  function PrintSigned(e: Expr): Signed
    decreases e, (Rule(e) + 2) % 4
  {
    if Rule(e) == 2 then SSign(e.negate, PrintSigned(e.arg)) else SAtom(PrintAtom(e))
  }

  function PrintAtom(e: Expr): Atom
    decreases e, (Rule(e) + 1) % 4
  {
    match e
    case Num(literal) => ANum(literal)
    case Ref(message, field) => ARef(message, field)
    case _ => AParen(PrintSum(e))
  }

  /** Printing at any rule keeps the tree. */
  lemma {:induction false} PrintKeeps(e: Expr)
    ensures SumTree(PrintSum(e)) == e && ProductTree(PrintProduct(e)) == e
    ensures SignedTree(PrintSigned(e)) == e && AtomTree(PrintAtom(e)) == e
  {
    match e
    case Unary(_, arg) =>
      PrintKeeps(arg);
      assert SignedTree(PrintSigned(e)) == e;
      assert ProductTree(PrintProduct(e)) == e;
      assert SumTree(PrintSum(e)) == e;
    case Binary(_, left, right) =>
      PrintKeeps(left);
      PrintKeeps(right);
      if Rule(e) == 0 {
        assert SumTree(PrintSum(e)) == e;
        assert AtomTree(PrintAtom(e)) == e;
        assert SignedTree(PrintSigned(e)) == e;
      } else {
        assert ProductTree(PrintProduct(e)) == e;
        assert SumTree(PrintSum(e)) == e;
        assert AtomTree(PrintAtom(e)) == e;
      }
    case _ =>
      assert AtomTree(PrintAtom(e)) == e;
      assert SignedTree(PrintSigned(e)) == e;
      assert ProductTree(PrintProduct(e)) == e;
  }

  function Print(e: Expr): seq<Token> { SumTokens(PrintSum(e)) }

  /** Parsing undoes printing. */
  lemma ParsePrint(e: Expr)
    ensures ParseTokens(Print(e) + [Eof]) == Ok(e)
  {
    PrintKeeps(e);
    SumHasNoEof(PrintSum(e));
    ParserIsGrammar(Print(e), e);
  }

  /** The longer way round a rule costs at most one pair of parentheses. */
  lemma {:induction false} PrintLengths(e: Expr)
    ensures |SumTokens(PrintSum(e))| <= |ProductTokens(PrintProduct(e))| <= |SignedTokens(PrintSigned(e))|
            <= |AtomTokens(PrintAtom(e))| <= |SumTokens(PrintSum(e))| + 2
  {
  }

  lemma {:induction false} ShortestAtom(a: Atom)
    ensures |AtomTokens(PrintAtom(AtomTree(a)))| <= |AtomTokens(a)|
    decreases a, 0
  {
    if a.AParen? {
      ShortestSum(a.inner);
      PrintLengths(SumTree(a.inner));
    }
  }

  lemma {:induction false} ShortestSigned(s: Signed)
    ensures |SignedTokens(PrintSigned(SignedTree(s)))| <= |SignedTokens(s)|
    decreases s, 1
  {
    PrintLengths(SignedTree(s));
    match s
    case SSign(_, arg) => ShortestSigned(arg);
    case SAtom(atom) => ShortestAtom(atom);
  }

  lemma {:induction false} ShortestProduct(p: Product)
    ensures |ProductTokens(PrintProduct(ProductTree(p)))| <= |ProductTokens(p)|
    decreases p, 2
  {
    PrintLengths(ProductTree(p));
    match p
    case POne(one) => ShortestSigned(one);
    case PTimes(left, _, right) => ShortestProduct(left); ShortestSigned(right);
  }

  /** Of all sentences with the same tree the printed one is a shortest: no
      parentheses could be left out. */
  lemma {:induction false} ShortestSum(s: Sum)
    ensures |Print(SumTree(s))| <= |SumTokens(s)|
    decreases s, 3
  {
    PrintLengths(SumTree(s));
    match s
    case SumOne(one) => ShortestProduct(one);
    case SumPlus(left, _, right) => ShortestSum(left); ShortestProduct(right);
  }

  // ------------------------------------------------------------------ as text

  function TokenText(t: Token): string {
    match t
    case Number(literal) => literal
    case Ident(name) => name
    case Symbol(c) => [c]
    case Eof => ""
  }

  function Render(ts: seq<Token>): string {
    if ts == [] then "" else TokenText(ts[0]) + (" " + Render(ts[1..]))
  }

  predicate IsLiteral(s: string, finite: string -> bool) {
    StartsNumber(s) && NumberLength(s) == |s| && finite(s)
  }

  predicate IsName(s: string) {
    s != [] && IsIdentStart(s[0]) && IdentLength(s) == |s|
  }

  predicate Printable(t: Token, finite: string -> bool) {
    match t
    case Number(literal) => IsLiteral(literal, finite)
    case Ident(name) => IsName(name)
    case Symbol(c) => IsSymbol(c)
    case Eof => false
  }

  lemma {:induction false} DigitsStop(s: string, t: string)
    requires t == [] || !IsDigit(t[0])
    ensures Digits(s + t) == Digits(s)
  {
    if s == [] {
      assert s + t == t;
    } else {
      assert (s + t)[1..] == s[1..] + t;
      DigitsStop(s[1..], t);
    }
  }

  lemma {:induction false} IdentStop(s: string, t: string)
    requires t == [] || !IsIdentPart(t[0])
    ensures IdentLength(s + t) == IdentLength(s)
  {
    if s == [] {
      assert s + t == t;
    } else {
      assert (s + t)[1..] == s[1..] + t;
      IdentStop(s[1..], t);
    }
  }

  lemma MantissaStop(s: string, t: string)
    requires t != [] && t[0] == ' '
    ensures MantissaLength(s + t) == MantissaLength(s)
  {
    hide Digits;
    DigitsStop(s, t);
    var whole := Digits(s);
    if whole < |s| && s[whole] == '.' {
      assert (s + t)[whole + 1..] == s[whole + 1..] + t;
      DigitsStop(s[whole + 1..], t);
    }
  }

  lemma ExponentStop(s: string, t: string)
    requires t != [] && t[0] == ' '
    ensures ExponentLength(s + t) == ExponentLength(s)
  {
    hide Digits;
    DigitsStop([], t);
    DigitsStop([], []);
    assert [] + t == t && [] + [] == "";
    if s != [] && (s[0] == 'e' || s[0] == 'E') {
      var sign := if |s| > 1 && (s[1] == '+' || s[1] == '-') then 2 else 1;
      assert (s + t)[sign..] == s[sign..] + t;
      DigitsStop(s[sign..], t);
    }
  }

  lemma NumberStop(s: string, t: string)
    requires t != [] && t[0] == ' '
    ensures NumberLength(s + t) == NumberLength(s)
  {
    MantissaStop(s, t);
    var m := MantissaLength(s);
    assert (s + t)[m..] == s[m..] + t;
    ExponentStop(s[m..], t);
  }

  /** Tokenizing undoes rendering. */
  lemma {:induction false} TokenizeRender(ts: seq<Token>, finite: string -> bool)
    requires forall i :: 0 <= i < |ts| ==> Printable(ts[i], finite)
    ensures Tokens(Render(ts), finite) == Ok(ts + [Eof])
  {
    if ts == [] {
      assert ts + [Eof] == [Eof];
    } else {
      TokenizeRender(ts[1..], finite);
      var tail := " " + Render(ts[1..]);
      assert tail[1..] == Render(ts[1..]);
      assert Tokens(tail, finite) == Ok(ts[1..] + [Eof]);
      TokenizeFirst(ts[0], tail, finite);
      assert [ts[0]] + (ts[1..] + [Eof]) == ts + [Eof];
    }
  }

  lemma NameLength(name: string)
    requires IsName(name)
    ensures IdentLength(name) == 1 + IdentLength(name[1..])
  {
  }

  lemma TokenizeFirst(t: Token, tail: string, finite: string -> bool)
    requires Printable(t, finite) && tail != [] && tail[0] == ' '
    ensures Tokens(TokenText(t) + tail, finite) == Push(t, Tokens(tail, finite))
  {
    hide Push, NumberLength, IdentLength, ExponentLength, MantissaLength, Digits;
    var text := TokenText(t);
    var s := text + tail;
    assert s[|text|..] == tail && s[..|text|] == text;
    match t
    case Number(literal) => NumberStop(literal, tail);
    case Ident(name) =>
      assert s[1..] == name[1..] + tail;
      IdentStop(name[1..], tail);
      assert IdentLength(name) == 1 + IdentLength(name[1..]) by { NameLength(name); }
    case Symbol(_) =>
  }

  /** Every literal and name in e can be written down. */
  predicate Writable(e: Expr, finite: string -> bool) {
    match e
    case Num(literal) => IsLiteral(literal, finite)
    case Ref(message, field) => IsName(message) && IsName(field)
    case Unary(_, arg) => Writable(arg, finite)
    case Binary(_, left, right) => Writable(left, finite) && Writable(right, finite)
  }

  predicate AllPrintable(ts: seq<Token>, finite: string -> bool) {
    forall i :: 0 <= i < |ts| ==> Printable(ts[i], finite)
  }

  lemma {:induction false} AtomPrintable(a: Atom, finite: string -> bool)
    requires Writable(AtomTree(a), finite)
    ensures AllPrintable(AtomTokens(a), finite)
    decreases a, 0
  {
    if a.AParen? { SumPrintable(a.inner, finite); }
  }

  lemma {:induction false} SignedPrintable(s: Signed, finite: string -> bool)
    requires Writable(SignedTree(s), finite)
    ensures AllPrintable(SignedTokens(s), finite)
    decreases s, 1
  {
    match s
    case SSign(_, arg) => SignedPrintable(arg, finite);
    case SAtom(atom) => AtomPrintable(atom, finite);
  }

  lemma {:induction false} ProductPrintable(p: Product, finite: string -> bool)
    requires Writable(ProductTree(p), finite)
    ensures AllPrintable(ProductTokens(p), finite)
    decreases p, 2
  {
    match p
    case POne(one) => SignedPrintable(one, finite);
    case PTimes(left, _, right) => ProductPrintable(left, finite); SignedPrintable(right, finite);
  }

  lemma {:induction false} SumPrintable(s: Sum, finite: string -> bool)
    requires Writable(SumTree(s), finite)
    ensures AllPrintable(SumTokens(s), finite)
    decreases s, 3
  {
    match s
    case SumOne(one) => ProductPrintable(one, finite);
    case SumPlus(left, _, right) => SumPrintable(left, finite); ProductPrintable(right, finite);
  }

  /** From text to tree: the printed text of an expression parses back to it. */
  lemma TextRoundTrip(e: Expr, finite: string -> bool)
    requires Writable(e, finite)
    ensures ParseText(Render(Print(e)), finite) == Ok(e)
  {
    hide Tokens, Render, ParseTokens;
    PrintKeeps(e);
    SumPrintable(PrintSum(e), finite);
    TokenizeRender(Print(e), finite);
    ParsePrint(e);
  }
}

/** JavaScript numbers. Finite ones are modelled without rounding. */
module Numbers {

  datatype Float = Fin(r: real) | PosInf | NegInf | NaN

  predicate IsFinite(f: Float) { f.Fin? }

  /** a < b, false when either is NaN. */
  predicate Less(a: Float, b: Float) {
    match (a, b)
    case (Fin(x), Fin(y)) => x < y
    case (NegInf, Fin(_)) => true
    case (NegInf, PosInf) => true
    case (Fin(_), PosInf) => true
    case _ => false
  }

  /** A strict order of all but NaN, from minus to plus infinity. */
  lemma LessIsOrder(a: Float, b: Float, c: Float)
    ensures Less(a, b) && Less(b, c) ==> Less(a, c)
    ensures !Less(a, a)
    ensures a != b && a != NaN && b != NaN ==> Less(a, b) || Less(b, a)
    ensures a == NaN || b == NaN ==> !Less(a, b)
    ensures forall x: real, y: real :: Less(Fin(x), Fin(y)) <==> x < y
    ensures forall x: real :: Less(NegInf, Fin(x)) && Less(Fin(x), PosInf)
  {
  }

  /** Math.round of a finite number. */
  function Round(x: real): int {
    (x + 0.5).Floor
  }

  lemma RoundInt(n: int)
    ensures Round(n as real) == n
  {
  }

  ghost predicate Sorted(s: seq<real>) {
    forall i, j :: 0 <= i <= j < |s| ==> s[i] <= s[j]
  }

  function Pow256(k: nat): (p: nat)
    ensures p > 0
  {
    if k == 0 then 1 else 256 * Pow256(k - 1)
  }

  /** Quotient and remainder are the only ones. */
  lemma DivModUnique(n: nat, q: nat, r: nat, m: nat)
    requires m > 0 && r < m && n == q * m + r
    ensures n / m == q && n % m == r
  {
    var q', r' := n / m, n % m;
    assert n == q' * m + r';
    if q' < q { MulGrows(q' + 1, q, m); } else if q < q' { MulGrows(q + 1, q', m); }
  }

  lemma MulGrows(a: nat, b: nat, m: nat)
    requires a <= b
    ensures a * m <= b * m
  {
  }
}

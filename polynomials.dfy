/**
 * Univariate polynomials over exact reals, the values sympy keeps for
 * the numerator and the denominator of the analysed function.
 */
module Polynomials {

  /** Coefficients in ascending order of power: p[i] is the coefficient of x^i.
      Trailing zero coefficients are allowed; they do not change the polynomial. */
  type Poly = seq<real>

  /** The coefficient of x^i, zero beyond the stored coefficients. */
  function Coef(p: Poly, i: nat): real {
    if i < |p| then p[i] else 0.0
  }

  predicate IsZero(p: Poly) {
    forall i :: 0 <= i < |p| ==> p[i] == 0.0
  }

  /** sympy's `degree`: the highest power with a nonzero coefficient; the zero
      polynomial gets -1, below the degree of every other polynomial. */
  function Degree(p: Poly): (d: int)
    ensures -1 <= d < |p|
    ensures d == -1 <==> IsZero(p)
    ensures d >= 0 ==> p[d] != 0.0
    ensures forall i :: d < i < |p| ==> p[i] == 0.0
    decreases |p|
  {
    if |p| == 0 then -1
    else if p[|p| - 1] != 0.0 then |p| - 1
    else Degree(p[..|p| - 1])
  }

  /** sympy's `LC`: the coefficient of the highest power, 0 for the zero polynomial. */
  function LeadingCoefficient(p: Poly): (c: real)
    ensures c == 0.0 <==> IsZero(p)
    ensures forall i :: Degree(p) < i < |p| ==> p[i] == 0.0
  {
    if Degree(p) < 0 then 0.0 else p[Degree(p)]
  }

  /** The value of p at x (sympy's `subs`), by Horner's rule. */
  function Eval(p: Poly, x: real): real
    decreases |p|
  {
    if |p| == 0 then 0.0 else p[0] + x * Eval(p[1..], x)
  }

  predicate IsRoot(p: Poly, x: real) {
    Eval(p, x) == 0.0
  }

  /** Evaluating at 0 gives the constant term. */
  lemma EvalAtZero(p: Poly)
    ensures Eval(p, 0.0) == Coef(p, 0)
  {
  }

  /** p equals g times h at every point: how the model states that dividing
      p by g leaves h. */
  ghost predicate FactorsAs(p: Poly, g: Poly, h: Poly) {
    forall x :: Eval(p, x) == Eval(g, x) * Eval(h, x)
  }

  /** A root of a factor is a root of every multiple of it. */
  lemma RootOfFactor(g: Poly, h: Poly, p: Poly, x: real)
    requires FactorsAs(p, g, h)
    requires IsRoot(g, x)
    ensures IsRoot(p, x)
  {
    assert Eval(p, x) == Eval(g, x) * Eval(h, x);
  }
}

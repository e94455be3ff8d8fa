/**
 * The rational-function feature analyser: for f(x) = N(x) / D(x) it reports the
 * vertical asymptotes, the horizontal asymptote, the holes, the intercepts and
 * the end behaviour.
 *
 * The computer-algebra steps (parsing, `solve`, `gcd`, `simplify`, `limit`)
 * are not modelled: their answers for one (N, D) pair arrive as a `Cas`
 * record, and `Faithful` states what those answers are known to satisfy.
 * Everything the analyser itself does with them (real-root filtering, the
 * degree law, the hole tolerance, sorting, the all-or-nothing error handling)
 * is modelled over exact reals: the `float(...)` conversions of roots and
 * values are not modelled.
 */
module RationalAnalysis {
  import opened Wrappers
  import opened Polynomials
  import opened Sorting

  /** A solution as the solver reports it; `root.is_real` tells the two kinds apart. */
  datatype Root = RealRoot(x: real) | ComplexRoot(re: real, im: real)

  /** A limit as the limit evaluator returns it. */
  datatype Limit = Finite(v: real) | PlusInfinity | MinusInfinity | ComplexInfinity | NotANumber

  /** One end of the end-behaviour pair: `float(limit)` when the limit is finite,
      otherwise `str(limit)`. */
  datatype EndValue = Number(v: real) | Symbol(text: string)

  /** The horizontal-asymptote answer: Python's None, a number, or the float
      nan that 0/0 produces when N and D are both the zero polynomial. */
  datatype Horizontal = NoAsymptote | AsymptoteAt(y: real) | NaN

  /** A removable discontinuity at x; y is the value of the reduced ratio there. */
  datatype Hole = Hole(x: real, y: real)

  /** The answers of the computer-algebra library for one numerator/denominator
      pair. A `None` stands for a call that raised. */
  datatype Cas = Cas(
    numeratorRoots: Option<seq<Root>>,     // solve(N, x)
    denominatorRoots: Option<seq<Root>>,   // solve(D, x)
    common: Poly,                          // gcd(N, D)
    commonRoots: Option<seq<Root>>,        // solve(gcd(N, D), x)
    reducedNumerator: Poly,                // simplify(N / gcd)
    reducedDenominator: Poly,              // simplify(D / gcd)
    limitAtPlusInfinity: Option<Limit>,    // limit(N / D, x, oo)
    limitAtMinusInfinity: Option<Limit>)   // limit(N / D, x, -oo)

  /** The analysis summary: the `{"error": message}` dictionary, or the six features. */
  datatype Summary =
    | Error(message: Option<string>)
    | Analysis(
        verticalAsymptotes: seq<real>,
        horizontalAsymptote: Horizontal,
        holes: seq<Hole>,
        xIntercepts: seq<real>,
        yIntercept: Option<real>,
        endBehavior: (Option<EndValue>, Option<EndValue>))

  /** Two x-values closer than this are the same point for the hole test. */
  const Tolerance: real := 0.0000000001

  function Abs(r: real): real {
    if r < 0.0 then -r else r
  }

  /** sympy's `gcd(...) == 1`. */
  predicate IsConstantOne(p: Poly) {
    Degree(p) == 0 && p[0] == 1.0
  }

  /** What the solver guarantees of `solve(p, x)`: every real solution is a root,
      every other one has a nonzero imaginary part, no solution is listed twice,
      and for a nonzero polynomial no real root is missing. */
  ghost predicate SolvesFor(p: Poly, roots: seq<Root>) {
    && (forall k :: 0 <= k < |roots| ==>
          if roots[k].RealRoot? then IsRoot(p, roots[k].x) else roots[k].im != 0.0)
    && Distinct(roots)
    && (!IsZero(p) ==> forall x :: IsRoot(p, x) ==> RealRoot(x) in roots)
  }

  /** The limit of N/D at plus or minus infinity for a nonzero D, by the
      leading-term rule: f(x) behaves like (LC(N) / LC(D)) * x^(deg N - deg D). */
  function DegreeLimit(n: Poly, d: Poly, towardsPlus: bool): Limit
    requires !IsZero(d)
  {
    var dn, dd := Degree(n), Degree(d);
    if dn < dd then Finite(0.0)
    else if dn == dd then Finite(LeadingCoefficient(n) / LeadingCoefficient(d))
    else
      var ratioPositive := (LeadingCoefficient(n) > 0.0) == (LeadingCoefficient(d) > 0.0);
      var flipped := !towardsPlus && (dn - dd) % 2 == 1;
      if ratioPositive != flipped then PlusInfinity else MinusInfinity
  }

  /** What the computer-algebra answers are known to satisfy for N and D. */
  ghost predicate Faithful(c: Cas, n: Poly, d: Poly) {
    && (c.numeratorRoots.Some? ==> SolvesFor(n, c.numeratorRoots.value))
    && (c.denominatorRoots.Some? ==> SolvesFor(d, c.denominatorRoots.value))
    && (c.commonRoots.Some? ==> SolvesFor(c.common, c.commonRoots.value))
    // the gcd divides both, leaving the two quotients
    && FactorsAs(n, c.common, c.reducedNumerator)
    && FactorsAs(d, c.common, c.reducedDenominator)
    // after dividing out the greatest common divisor no real root is shared
    && (forall x :: !(IsRoot(c.reducedNumerator, x) && IsRoot(c.reducedDenominator, x)))
    && (!IsZero(d) ==>
          && c.limitAtPlusInfinity == Some(DegreeLimit(n, d, true))
          && c.limitAtMinusInfinity == Some(DegreeLimit(n, d, false)))
  }

  /** The degree law for the horizontal asymptote. */
  function HorizontalByDegree(n: Poly, d: Poly): Horizontal {
    var dn, dd := Degree(n), Degree(d);
    if dn < dd then AsymptoteAt(0.0)
    else if dn == dd then
      // equal degrees with LC(D) = 0 means N = D = 0, and 0/0 is nan
      if LeadingCoefficient(d) == 0.0 then NaN
      else AsymptoteAt(LeadingCoefficient(n) / LeadingCoefficient(d))
    else NoAsymptote
  }

  /** `float(limit) if limit.is_finite else str(limit)`. */
  function Converted(l: Limit): EndValue {
    match l
    case Finite(v) => Number(v)
    case PlusInfinity => Symbol("oo")
    case MinusInfinity => Symbol("-oo")
    case ComplexInfinity => Symbol("zoo")
    case NotANumber => Symbol("nan")
  }

  predicate IsInfinite(e: Option<EndValue>) {
    e == Some(Symbol("oo")) || e == Some(Symbol("-oo"))
  }

  /** `any(abs(hole[0] - x) < 1e-10 for hole in holes)`. */
  predicate NearHole(holes: seq<Hole>, x: real) {
    exists k :: 0 <= k < |holes| && Abs(holes[k].x - x) < Tolerance
  }

  /** The real roots, in solver order, that are not within the tolerance of a hole.
      Defined on the last root so that it follows the left-to-right scan. */
  function RootsOutside(roots: seq<Root>, holes: seq<Hole>): (r: seq<real>)
    ensures forall x :: x in r <==> RealRoot(x) in roots && !NearHole(holes, x)
    decreases |roots|
  {
    if |roots| == 0 then []
    else
      var init, last := roots[..|roots| - 1], roots[|roots| - 1];
      assert roots == init + [last];
      var kept := RootsOutside(init, holes);
      if last.RealRoot? && !NearHole(holes, last.x) then kept + [last.x] else kept
  }

  /** A filtered value occurs no more often than its root does. */
  lemma {:induction false} RootsOutsideCount(roots: seq<Root>, holes: seq<Hole>, x: real)
    ensures multiset(RootsOutside(roots, holes))[x] <= multiset(roots)[RealRoot(x)]
    decreases |roots|
  {
    if |roots| > 0 {
      var init, last := roots[..|roots| - 1], roots[|roots| - 1];
      assert roots == init + [last];
      RootsOutsideCount(init, holes, x);
    }
  }

  lemma RootsOutsideDistinct(roots: seq<Root>, holes: seq<Hole>)
    requires Distinct(roots)
    ensures Distinct(RootsOutside(roots, holes))
  {
    forall x ensures multiset(RootsOutside(roots, holes))[x] <= 1 {
      RootsOutsideCount(roots, holes, x);
    }
  }

  /** The state of the hole loop: the holes found so far, or the exception that
      made `find_holes` return []. */
  datatype HoleScan = Scanned(holes: seq<Hole>) | Failed

  /** The hole loop over the roots of the gcd: each real root x becomes the hole
      (x, rn(x) / rd(x)); a root where rd vanishes raises (sympy's complex
      infinity cannot be converted to a float). */
  function ScanHoles(roots: seq<Root>, rn: Poly, rd: Poly): (r: HoleScan)
    ensures r.Scanned? ==> |r.holes| <= |roots|
    decreases |roots|
  {
    if |roots| == 0 then Scanned([])
    else
      match ScanHoles(roots[..|roots| - 1], rn, rd)
      case Failed => Failed
      case Scanned(hs) =>
        var last := roots[|roots| - 1];
        if !last.RealRoot? then Scanned(hs)
        else if Eval(rd, last.x) == 0.0 then Failed
        else Scanned(hs + [Hole(last.x, Eval(rn, last.x) / Eval(rd, last.x))])
  }

  /** Once the loop has raised, the remaining roots cannot undo it. */
  lemma {:induction false} ScanFailureSticks(roots: seq<Root>, i: nat, rn: Poly, rd: Poly)
    requires i <= |roots|
    requires ScanHoles(roots[..i], rn, rd) == Failed
    ensures ScanHoles(roots, rn, rd) == Failed
    decreases |roots| - i
  {
    if i < |roots| {
      assert roots[..i + 1][..i] == roots[..i];
      ScanFailureSticks(roots, i + 1, rn, rd);
    } else {
      assert roots[..i] == roots;
    }
  }

  /** The loop raises exactly when some real root is also a root of rd. */
  lemma {:induction false} ScanFailsIff(roots: seq<Root>, rn: Poly, rd: Poly)
    ensures ScanHoles(roots, rn, rd) == Failed <==>
            exists k :: 0 <= k < |roots| && roots[k].RealRoot? && IsRoot(rd, roots[k].x)
    decreases |roots|
  {
    if |roots| > 0 {
      var init := roots[..|roots| - 1];
      ScanFailsIff(init, rn, rd);
      assert forall k :: 0 <= k < |init| ==> init[k] == roots[k];
    }
  }

  /** Each hole found comes from a real root where rd does not vanish, and
      carries the reduced ratio's value there; each real root gives a hole. */
  lemma {:induction false} ScanHolesSound(roots: seq<Root>, rn: Poly, rd: Poly)
    requires ScanHoles(roots, rn, rd).Scanned?
    ensures var hs := ScanHoles(roots, rn, rd).holes;
      && (forall k :: 0 <= k < |hs| ==>
            && RealRoot(hs[k].x) in roots
            && !IsRoot(rd, hs[k].x)
            && hs[k].y == Eval(rn, hs[k].x) / Eval(rd, hs[k].x))
      && (forall x :: RealRoot(x) in roots ==> exists k :: 0 <= k < |hs| && hs[k].x == x)
    decreases |roots|
  {
    if |roots| > 0 {
      var init, last := roots[..|roots| - 1], roots[|roots| - 1];
      assert roots == init + [last];
      ScanHolesSound(init, rn, rd);
      var hs := ScanHoles(roots, rn, rd).holes;
      var hs0 := ScanHoles(init, rn, rd).holes;
      assert forall k :: 0 <= k < |hs0| ==> hs[k] == hs0[k];
      forall x | RealRoot(x) in roots
        ensures exists k :: 0 <= k < |hs| && hs[k].x == x
      {
        if RealRoot(x) in init {
          var k :| 0 <= k < |hs0| && hs0[k].x == x;
          assert hs[k].x == x;
        } else {
          assert last == RealRoot(x);
          assert hs[|hs| - 1].x == x;
        }
      }
    }
  }

  /** The analyser for one rational function. Its fields are set once, at
      construction, and never change; every query is a function of them. */
  class RationalAnalyzer {
    const numerator: Poly
    const denominator: Poly
    const valid: bool
    const errorMessage: Option<string>
    const cas: Cas

    /** The computer-algebra answers belong to this numerator and denominator,
        and a message is recorded exactly when construction failed. */
    ghost predicate Valid() {
      && (valid <==> errorMessage.None?)
      && (valid ==> Faithful(cas, numerator, denominator))
    }

    /** `__init__`: the two parse outcomes stand for `sympify` on the two strings;
        the numerator is parsed first, so its error is the one reported. */
    constructor (parsedNumerator: Result<Poly>, parsedDenominator: Result<Poly>, algebra: Cas)
      requires parsedNumerator.Success? && parsedDenominator.Success? ==>
               Faithful(algebra, parsedNumerator.value, parsedDenominator.value)
      ensures Valid()
      ensures valid <==> parsedNumerator.Success? && parsedDenominator.Success?
      ensures valid ==> numerator == parsedNumerator.value && denominator == parsedDenominator.value
      ensures parsedNumerator.Failure? ==>
              errorMessage == Some("Invalid function: " + parsedNumerator.error)
      ensures parsedNumerator.Success? && parsedDenominator.Failure? ==>
              errorMessage == Some("Invalid function: " + parsedDenominator.error)
      ensures cas == algebra
    {
      cas := algebra;
      if parsedNumerator.Failure? {
        numerator, denominator := [], [];
        valid, errorMessage := false, Some("Invalid function: " + parsedNumerator.error);
      } else if parsedDenominator.Failure? {
        numerator, denominator := [], [];
        valid, errorMessage := false, Some("Invalid function: " + parsedDenominator.error);
      } else {
        numerator, denominator := parsedNumerator.value, parsedDenominator.value;
        valid, errorMessage := true, None;
      }
    }

    /** The holes `find_holes` returns. */
    function HolesOf(): seq<Hole> {
      if !valid || IsConstantOne(cas.common) then []
      else match cas.commonRoots
        case None => []
        case Some(roots) =>
          match ScanHoles(roots, cas.reducedNumerator, cas.reducedDenominator)
          case Failed => []
          case Scanned(hs) => hs
    }

    /** `is_hole`: within the tolerance of some hole's x-coordinate. */
    function IsHole(x: real): (b: bool)
      ensures (exists k :: 0 <= k < |HolesOf()| && HolesOf()[k].x == x) ==> b
      ensures b ==> valid && !IsConstantOne(cas.common) && cas.commonRoots.Some?
                    && ScanHoles(cas.commonRoots.value, cas.reducedNumerator, cas.reducedDenominator).Scanned?
    {
      NearHole(HolesOf(), x)
    }

    /** When the hole loop succeeds, a point counts as a hole exactly when it
        lies within the tolerance of a real root of the gcd. */
    lemma IsHoleIffNearCommonRoot(x: real)
      requires valid && !IsConstantOne(cas.common) && cas.commonRoots.Some?
      requires ScanHoles(cas.commonRoots.value, cas.reducedNumerator, cas.reducedDenominator).Scanned?
      ensures IsHole(x) <==> exists r :: RealRoot(r) in cas.commonRoots.value && Abs(r - x) < Tolerance
    {
      var roots := cas.commonRoots.value;
      ScanHolesSound(roots, cas.reducedNumerator, cas.reducedDenominator);
      var hs := HolesOf();
      if IsHole(x) {
        var k :| 0 <= k < |hs| && Abs(hs[k].x - x) < Tolerance;
        assert RealRoot(hs[k].x) in roots;
      }
      if r :| RealRoot(r) in roots && Abs(r - x) < Tolerance {
        var k :| 0 <= k < |hs| && hs[k].x == r;
        assert Abs(hs[k].x - x) < Tolerance;
      }
    }

    /** The list `find_vertical_asymptotes` returns. */
    function VerticalAsymptotesOf(): seq<real> {
      if !valid then []
      else match cas.denominatorRoots
        case None => []
        case Some(roots) => SortAscending(RootsOutside(roots, HolesOf()))
    }

    /** The list `find_x_intercepts` returns. */
    function XInterceptsOf(): seq<real> {
      if !valid then []
      else match cas.numeratorRoots
        case None => []
        case Some(roots) => SortAscending(RootsOutside(roots, HolesOf()))
    }

    /** `find_horizontal_asymptote`. */
    function FindHorizontalAsymptote(): (h: Horizontal)
      ensures !valid ==> h == NoAsymptote
    {
      if !valid then NoAsymptote else HorizontalByDegree(numerator, denominator)
    }

    /** `find_y_intercept`: f(0) when D(0) is not zero. Stated on the constant terms. */
    function FindYIntercept(): (y: Option<real>)
      ensures !valid ==> y == None
      ensures valid ==> (y == None <==> Coef(denominator, 0) == 0.0)
      ensures valid && y.Some? ==> y.value == Coef(numerator, 0) / Coef(denominator, 0)
    {
      EvalAtZero(numerator);
      EvalAtZero(denominator);
      if !valid then None
      else if Eval(denominator, 0.0) != 0.0 then Some(Eval(numerator, 0.0) / Eval(denominator, 0.0))
      else None
    }

    /** `analyze_end_behavior`: (limit at -oo, limit at +oo); if either limit
        raises, both ends are absent. */
    function AnalyzeEndBehavior(): (ends: (Option<EndValue>, Option<EndValue>))
      ensures ends.0.Some? <==> ends.1.Some?
      ensures !valid ==> ends == (None, None)
    {
      if !valid then (None, None)
      else if cas.limitAtPlusInfinity.Some? && cas.limitAtMinusInfinity.Some? then
        (Some(Converted(cas.limitAtMinusInfinity.value)), Some(Converted(cas.limitAtPlusInfinity.value)))
      else (None, None)
    }

    /** The dictionary `get_analysis_summary` returns. */
    function SummaryOf(): Summary {
      if !valid then Error(errorMessage)
      else Analysis(VerticalAsymptotesOf(), FindHorizontalAsymptote(), HolesOf(),
                    XInterceptsOf(), FindYIntercept(), AnalyzeEndBehavior())
    }

    /** `find_vertical_asymptotes`: the real roots of D that are not holes, sorted. */
    method FindVerticalAsymptotes() returns (asymptotes: seq<real>)
      ensures asymptotes == VerticalAsymptotesOf()
      ensures !valid ==> asymptotes == []
      ensures SortedAscending(asymptotes)
      ensures forall x :: x in asymptotes ==> !IsHole(x)
      ensures valid && cas.denominatorRoots.Some? ==>
              forall x :: x in asymptotes <==> RealRoot(x) in cas.denominatorRoots.value && !IsHole(x)
    {
      if !valid {
        return [];
      }
      match cas.denominatorRoots
      case None =>
        // the solver raised; the except clause returns []
        return [];
      case Some(roots) =>
        var found: seq<real> := [];
        var i := 0;
        while i < |roots|
          invariant 0 <= i <= |roots|
          invariant found == RootsOutside(roots[..i], HolesOf())
        {
          assert roots[..i + 1][..i] == roots[..i];
          if roots[i].RealRoot? && !IsHole(roots[i].x) {
            found := found + [roots[i].x];
          }
          i := i + 1;
        }
        assert roots[..i] == roots;
        asymptotes := SortAscending(found);
        forall x ensures x in asymptotes <==> x in found {
          SortKeepsMembers(found, x);
        }
    }

    /** `find_holes`: one hole per real root of the gcd, or none at all. */
    method FindHoles() returns (holes: seq<Hole>)
      ensures holes == HolesOf()
      ensures !valid || IsConstantOne(cas.common) ==> holes == []
      ensures forall k :: 0 <= k < |holes| ==>
                !IsRoot(cas.reducedDenominator, holes[k].x) &&
                holes[k].y == Eval(cas.reducedNumerator, holes[k].x) / Eval(cas.reducedDenominator, holes[k].x)
    {
      if !valid || IsConstantOne(cas.common) {
        return [];
      }
      match cas.commonRoots
      case None =>
        return [];
      case Some(roots) =>
        var rn, rd := cas.reducedNumerator, cas.reducedDenominator;
        holes := [];
        var i := 0;
        while i < |roots|
          invariant 0 <= i <= |roots|
          invariant ScanHoles(roots[..i], rn, rd) == Scanned(holes)
        {
          assert roots[..i + 1][..i] == roots[..i];
          if roots[i].RealRoot? {
            var x := roots[i].x;
            var below := Eval(rd, x);
            if below == 0.0 {
              // float() of complex infinity raises; the except clause returns []
              ScanFailureSticks(roots, i + 1, rn, rd);
              return [];
            }
            holes := holes + [Hole(x, Eval(rn, x) / below)];
          }
          i := i + 1;
        }
        assert roots[..i] == roots;
        ScanHolesSound(roots, rn, rd);
    }

    /** `find_x_intercepts`: the real roots of N that are not holes, sorted. */
    method FindXIntercepts() returns (intercepts: seq<real>)
      ensures intercepts == XInterceptsOf()
      ensures !valid ==> intercepts == []
      ensures SortedAscending(intercepts)
      ensures forall x :: x in intercepts ==> !IsHole(x)
      ensures valid && cas.numeratorRoots.Some? ==>
              forall x :: x in intercepts <==> RealRoot(x) in cas.numeratorRoots.value && !IsHole(x)
    {
      if !valid {
        return [];
      }
      match cas.numeratorRoots
      case None =>
        return [];
      case Some(roots) =>
        var found: seq<real> := [];
        var i := 0;
        while i < |roots|
          invariant 0 <= i <= |roots|
          invariant found == RootsOutside(roots[..i], HolesOf())
        {
          assert roots[..i + 1][..i] == roots[..i];
          if roots[i].RealRoot? && !IsHole(roots[i].x) {
            found := found + [roots[i].x];
          }
          i := i + 1;
        }
        assert roots[..i] == roots;
        intercepts := SortAscending(found);
        forall x ensures x in intercepts <==> x in found {
          SortKeepsMembers(found, x);
        }
    }

    /** `get_analysis_summary`: the error alone, or exactly the six queries. */
    method GetAnalysisSummary() returns (summary: Summary)
      ensures summary == SummaryOf()
      ensures !valid ==> summary == Error(errorMessage)
      ensures valid ==> summary.Analysis?
      ensures summary.Analysis? ==>
              && summary.verticalAsymptotes == VerticalAsymptotesOf()
              && summary.horizontalAsymptote == FindHorizontalAsymptote()
              && summary.holes == HolesOf()
              && summary.xIntercepts == XInterceptsOf()
              && summary.yIntercept == FindYIntercept()
              && summary.endBehavior == AnalyzeEndBehavior()
    {
      if !valid {
        return Error(errorMessage);
      }
      var vertical := FindVerticalAsymptotes();
      var holes := FindHoles();
      var intercepts := FindXIntercepts();
      summary := Analysis(vertical, FindHorizontalAsymptote(), holes, intercepts,
                          FindYIntercept(), AnalyzeEndBehavior());
    }

    /** A failed construction makes every query give its empty form. */
    lemma InvalidGivesEmptyAnswers()
      requires Valid() && !valid
      ensures VerticalAsymptotesOf() == [] && HolesOf() == [] && XInterceptsOf() == []
      ensures FindHorizontalAsymptote() == NoAsymptote && FindYIntercept() == None
      ensures AnalyzeEndBehavior() == (None, None)
      ensures SummaryOf() == Error(errorMessage) && errorMessage.Some?
    {
    }

    /** Every hole sits at a common real root of N and D, where the reduced
        denominator does not vanish, and its y is the reduced ratio there. */
    lemma HolesAreCommonRoots(h: Hole)
      requires Valid() && h in HolesOf()
      ensures IsRoot(numerator, h.x) && IsRoot(denominator, h.x)
      ensures !IsRoot(cas.reducedDenominator, h.x)
      ensures h.y == Eval(cas.reducedNumerator, h.x) / Eval(cas.reducedDenominator, h.x)
    {
      var roots := cas.commonRoots.value;
      var rn, rd := cas.reducedNumerator, cas.reducedDenominator;
      ScanHolesSound(roots, rn, rd);
      var hs := HolesOf();
      var k :| 0 <= k < |hs| && hs[k] == h;
      var j :| 0 <= j < |roots| && roots[j] == RealRoot(h.x);
      assert IsRoot(cas.common, h.x);
      RootOfFactor(cas.common, rn, numerator, h.x);
      RootOfFactor(cas.common, rd, denominator, h.x);
    }

    /** Holes are all or nothing: one real root of the gcd at which the reduced
        denominator still vanishes empties the list, and that root is then
        reported as a vertical asymptote. */
    lemma FailedHoleIsVerticalAsymptote(x: real)
      requires Valid() && valid && !IsConstantOne(cas.common)
      requires cas.commonRoots.Some? && RealRoot(x) in cas.commonRoots.value
      requires IsRoot(cas.reducedDenominator, x)
      requires cas.denominatorRoots.Some? && !IsZero(denominator)
      ensures HolesOf() == []
      ensures x in VerticalAsymptotesOf()
    {
      var roots := cas.commonRoots.value;
      var k :| 0 <= k < |roots| && roots[k] == RealRoot(x);
      ScanFailsIff(roots, cas.reducedNumerator, cas.reducedDenominator);
      assert IsRoot(cas.common, x);
      RootOfFactor(cas.common, cas.reducedDenominator, denominator, x);
      assert !IsHole(x);
      SortKeepsMembers(RootsOutside(cas.denominatorRoots.value, HolesOf()), x);
    }

    /** The hole x-coordinates are neither vertical asymptotes nor x-intercepts. */
    lemma HolesExcluded(h: Hole)
      requires h in HolesOf()
      ensures h.x !in VerticalAsymptotesOf()
      ensures h.x !in XInterceptsOf()
    {
      var k :| 0 <= k < |HolesOf()| && HolesOf()[k] == h;
      assert IsHole(h.x);
      if valid && cas.denominatorRoots.Some? {
        SortKeepsMembers(RootsOutside(cas.denominatorRoots.value, HolesOf()), h.x);
      }
      if valid && cas.numeratorRoots.Some? {
        SortKeepsMembers(RootsOutside(cas.numeratorRoots.value, HolesOf()), h.x);
      }
    }

    /** No vertical asymptote is listed twice, and for a nonzero D they are
        exactly its real roots that are not holes. */
    lemma VerticalAsymptotesExact(x: real)
      requires Valid() && valid && cas.denominatorRoots.Some?
      ensures !IsZero(denominator) ==>
              (x in VerticalAsymptotesOf() <==> IsRoot(denominator, x) && !IsHole(x))
      ensures Distinct(VerticalAsymptotesOf())
    {
      var roots := cas.denominatorRoots.value;
      SortKeepsMembers(RootsOutside(roots, HolesOf()), x);
      if RealRoot(x) in roots {
        var k :| 0 <= k < |roots| && roots[k] == RealRoot(x);
      }
      RootsOutsideDistinct(roots, HolesOf());
      SortKeepsDistinct(RootsOutside(roots, HolesOf()));
    }

    /** No x-intercept is listed twice, and for a nonzero N they are exactly
        its real roots that are not holes. */
    lemma XInterceptsExact(x: real)
      requires Valid() && valid && cas.numeratorRoots.Some?
      ensures !IsZero(numerator) ==>
              (x in XInterceptsOf() <==> IsRoot(numerator, x) && !IsHole(x))
      ensures Distinct(XInterceptsOf())
    {
      var roots := cas.numeratorRoots.value;
      SortKeepsMembers(RootsOutside(roots, HolesOf()), x);
      if RealRoot(x) in roots {
        var k :| 0 <= k < |roots| && roots[k] == RealRoot(x);
      }
      RootsOutsideDistinct(roots, HolesOf());
      SortKeepsDistinct(RootsOutside(roots, HolesOf()));
    }

    /** The degree law: below gives 0, equal gives the ratio of leading
        coefficients, above gives no asymptote. */
    lemma HorizontalDegreeLaw()
      requires valid && !(IsZero(numerator) && IsZero(denominator))
      ensures Degree(numerator) < Degree(denominator) ==> FindHorizontalAsymptote() == AsymptoteAt(0.0)
      ensures Degree(numerator) == Degree(denominator) ==>
              FindHorizontalAsymptote() ==
              AsymptoteAt(LeadingCoefficient(numerator) / LeadingCoefficient(denominator))
      ensures Degree(numerator) > Degree(denominator) ==> FindHorizontalAsymptote() == NoAsymptote
    {
    }

    /** For a nonzero D the horizontal asymptote is the common finite limit at
        both ends, and there is none exactly when both ends diverge. */
    lemma HorizontalAsymptoteIsCommonLimit(y: real)
      requires Valid() && valid && !IsZero(denominator)
      ensures FindHorizontalAsymptote() == AsymptoteAt(y) <==>
              AnalyzeEndBehavior() == (Some(Number(y)), Some(Number(y)))
      ensures FindHorizontalAsymptote() == NoAsymptote <==>
              IsInfinite(AnalyzeEndBehavior().0) && IsInfinite(AnalyzeEndBehavior().1)
    {
    }

    /** When deg N > deg D the ends diverge in the same direction exactly when
        the degree gap is even, and the +oo end has the sign of LC(N) / LC(D). */
    lemma EndBehaviorParity()
      requires Valid() && valid && !IsZero(denominator)
      requires Degree(numerator) > Degree(denominator)
      ensures AnalyzeEndBehavior().0 == AnalyzeEndBehavior().1 <==>
              (Degree(numerator) - Degree(denominator)) % 2 == 0
      ensures AnalyzeEndBehavior().1 == Some(Symbol("oo")) <==>
              LeadingCoefficient(numerator) / LeadingCoefficient(denominator) > 0.0
    {
      var a, b := LeadingCoefficient(numerator), LeadingCoefficient(denominator);
      assert b != 0.0 && a != 0.0;
      SignOfQuotient(a, b);
    }
  }

  lemma SignOfQuotient(a: real, b: real)
    requires a != 0.0 && b != 0.0
    ensures a / b > 0.0 <==> ((a > 0.0) == (b > 0.0))
  {
    if b > 0.0 {
      assert a / b * b == a;
    } else {
      assert a / b * b == a;
    }
  }
}

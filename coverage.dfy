/**
 * Coverage of adsorbed gases on one face: the residual handed to the
 * nonlinear solver, the test that accepts a root, and the clamp that caps a
 * coverage at the monolayer value.
 */
module Coverage {
  import opened Common

  /** Row `row` times vector `v`, over the first `n` entries. */
  function RowDot(row: seq<real>, v: seq<real>, n: nat): real
    requires |row| >= n && |v| >= n
  {
    if n == 0 then 0.0 else RowDot(row, v, n - 1) + row[n - 1] * v[n - 1]
  }

  predicate Square(w: seq<seq<real>>, n: nat)
  {
    |w| == n && forall k :: 0 <= k < n ==> |w[k]| == n
  }

  /** Lateral interaction felt by each gas: `w * theta`. */
  function CalW(w: seq<seq<real>>, v: seq<real>, n: nat): (r: seq<real>)
    requires Square(w, n) && |v| >= n
    ensures |r| == n
  {
    seq(n, k requires 0 <= k < n => RowDot(w[k], v, n))
  }

  lemma {:induction false} RowDotZero(row: seq<real>, v: seq<real>, n: nat)
    requires |row| >= n && |v| >= n
    requires forall j :: 0 <= j < n ==> v[j] == 0.0
    ensures RowDot(row, v, n) == 0.0
  {
    if n > 0 {
      RowDotZero(row, v, n - 1);
    }
  }

  /** On a bare face (every coverage zero) no gas feels any lateral interaction. */
  lemma CalWOfBareFace(w: seq<seq<real>>, v: seq<real>, n: nat)
    requires Square(w, n) && |v| >= n
    requires forall j :: 0 <= j < n ==> v[j] == 0.0
    ensures forall k :: 0 <= k < n ==> CalW(w, v, n)[k] == 0.0
  {
    forall k | 0 <= k < n
      ensures CalW(w, v, n)[k] == 0.0
    {
      RowDotZero(w[k], v, n);
    }
  }

  /** What the solver's residual reads about the gases, per gas. */
  datatype Gases = Gases(rPP: seq<real>, sGas: seq<real>, adsType: seq<string>)

  /** What it reads about one face, per gas: energies, entropies, interactions. */
  datatype FaceTerms = FaceTerms(eAds: seq<real>, sAds: seq<real>, w: seq<seq<real>>)

  predicate Shaped(n: nat, g: Gases, f: FaceTerms)
  {
    |g.rPP| == n && |g.sGas| == n && |g.adsType| == n &&
    |f.eAds| == n && |f.sAds| == n && Square(f.w, n)
  }

  /** A gas that adsorbs; any other type contributes a zero residual. */
  predicate Adsorbing(adsType: string)
  {
    adsType == "Associative" || adsType == "Dissociative"
  }

  /**
   * Numerator of gas k's exponent: the adsorption energy less the lateral
   * interaction and `T` times the entropy change, doubled for a gas that
   * dissociates.
   */
  function Drive(g: Gases, f: FaceTerms, t: real, calw: seq<real>, k: nat): real
    requires |g.sGas| > k && |g.adsType| > k && |f.eAds| > k && |f.sAds| > k && |calw| > k
  {
    var ds := t * (f.sAds[k] - g.sGas[k]);
    if g.adsType[k] == "Dissociative" then 2.0 * f.eAds[k] - 2.0 * calw[k] - ds
    else f.eAds[k] - calw[k] - ds
  }

  /**
   * Residual of gas k at the trial vector `x` (coverages then the free-site
   * term). `None` is a value numpy carries as inf or nan. Dividing by a zero
   * temperature gives -inf, nan or +inf as the numerator is negative, zero or
   * positive, and `exp` takes them to 0, nan and inf: only a negative
   * numerator leaves a finite residual, `-x[n]`, and then only when the
   * partial pressure that divides the zero is not itself zero. A zero partial
   * pressure at a positive temperature, and the square root of a negative
   * number, are not finite either.
   */
  function GasResidual(n: nat, g: Gases, f: FaceTerms, t: real, exp: real -> real,
                       sqrt: real -> real, x: seq<real>, calw: seq<real>, k: nat): Option<real>
    requires Shaped(n, g, f) && |x| == n + 1 && |calw| == n && k < n
  {
    var drive := Drive(g, f, t, calw, k);
    if !Adsorbing(g.adsType[k]) then Some(0.0)
    else if t == 0.0 then
      if drive < 0.0 && g.rPP[k] != 0.0 then Some(-x[n]) else None
    else if g.rPP[k] == 0.0 then None
    else if g.adsType[k] == "Associative" then
      Some(x[k] * exp(drive / (KB * t)) / g.rPP[k] - x[n])
    else
      var base := exp(drive / (KB * t)) / g.rPP[k];
      if base < 0.0 then None else Some(x[k] * sqrt(base) - x[n])
  }

  /** The solver's residual vector: one entry per gas, then the site balance. */
  function Residual(n: nat, g: Gases, f: FaceTerms, t: real, exp: real -> real,
                    sqrt: real -> real, x: seq<real>): (r: seq<Option<real>>)
    requires Shaped(n, g, f) && |x| == n + 1
    ensures |r| == n + 1
    ensures r[n] == Some(SumReal(x) - 1.0)
  {
    var calw := CalW(f.w, x, n);
    seq(n + 1, k requires 0 <= k <= n =>
      if k < n then GasResidual(n, g, f, t, exp, sqrt, x, calw, k) else Some(SumReal(x) - 1.0))
  }

  predicate AllFinite(r: seq<Option<real>>)
  {
    forall i :: 0 <= i < |r| ==> r[i].Some?
  }

  function SumFinite(r: seq<Option<real>>): real
    requires AllFinite(r)
  {
    if r == [] then 0.0 else SumFinite(r[..|r| - 1]) + r[|r| - 1].value
  }

  /** Tolerance on the summed residual, `10**(-6)`. */
  const Tolerance: real := 1.0 / 1000000.0

  /**
   * The loop around the solver stops at a root whose entries are all positive
   * and whose residuals sum to less than the tolerance in absolute value; a
   * non-finite residual makes the comparison false.
   */
  predicate Accepted(n: nat, g: Gases, f: FaceTerms, t: real, exp: real -> real,
                     sqrt: real -> real, x: seq<real>)
    requires Shaped(n, g, f)
  {
    |x| == n + 1 &&
    (forall i :: 0 <= i < |x| ==> x[i] > 0.0) &&
    var r := Residual(n, g, f, t, exp, sqrt, x);
    AllFinite(r) && -Tolerance < SumFinite(r) < Tolerance
  }

  /** An accepted root has one entry per gas and one for the free sites, all positive. */
  lemma AcceptedRoot(n: nat, g: Gases, f: FaceTerms, t: real, exp: real -> real, sqrt: real -> real, x: seq<real>)
    requires Shaped(n, g, f) && Accepted(n, g, f, t, exp, sqrt, x)
    ensures |x| == n + 1 && forall i :: 0 <= i < n ==> x[i] > 0.0
  {
  }

  /**
   * At zero temperature an adsorbing gas's residual is finite exactly when its
   * exponent's numerator is negative and its partial pressure is not zero,
   * and it is then `-x[n]`.
   */
  lemma FrozenResidual(n: nat, g: Gases, f: FaceTerms, exp: real -> real, sqrt: real -> real,
                       x: seq<real>, k: nat)
    requires Shaped(n, g, f) && |x| == n + 1 && k < n && Adsorbing(g.adsType[k])
    ensures var calw := CalW(f.w, x, n);
      var r := Residual(n, g, f, 0.0, exp, sqrt, x)[k];
      (r.Some? <==> Drive(g, f, 0.0, calw, k) < 0.0 && g.rPP[k] != 0.0) && (r.Some? ==> r.value == -x[n])
  {
  }

  /**
   * A root accepted at zero temperature has every adsorbing gas with a
   * negative numerator and a non-zero partial pressure, and that gas's
   * residual is minus the free-site term.
   */
  lemma FrozenAccepted(n: nat, g: Gases, f: FaceTerms, exp: real -> real, sqrt: real -> real, x: seq<real>)
    requires Shaped(n, g, f) && Accepted(n, g, f, 0.0, exp, sqrt, x)
    ensures forall k :: 0 <= k < n && Adsorbing(g.adsType[k]) ==>
      Drive(g, f, 0.0, CalW(f.w, x, n), k) < 0.0 && g.rPP[k] != 0.0 &&
      Residual(n, g, f, 0.0, exp, sqrt, x)[k] == Some(-x[n])
  {
    forall k | 0 <= k < n && Adsorbing(g.adsType[k])
      ensures Drive(g, f, 0.0, CalW(f.w, x, n), k) < 0.0 && g.rPP[k] != 0.0 &&
              Residual(n, g, f, 0.0, exp, sqrt, x)[k] == Some(-x[n])
    {
      FrozenResidual(n, g, f, exp, sqrt, x, k);
    }
  }

  // ------------------------------------------------------------ the clamp

  /** Coverage vector with only gas j present, at `cap`. */
  function OneHot(n: nat, j: nat, cap: real): (r: seq<real>)
    ensures |r| == n
  {
    seq(n, i => if i == j then cap else 0.0)
  }

  /**
   * The clamp loop from position j on: wherever the current vector reaches the
   * cap, it is replaced by the one-gas vector at the cap.
   */
  function ClampFrom(theta: seq<real>, cap: real, n: nat, j: nat): (r: seq<real>)
    requires |theta| >= n
    ensures |r| >= n
    decreases n - j
  {
    if j >= n then theta
    else ClampFrom(if theta[j] >= cap then OneHot(n, j, cap) else theta, cap, n, j + 1)
  }

  /** First gas whose coverage reaches the cap, if any. */
  function FirstAtCap(theta: seq<real>, cap: real, n: nat, j: nat): (r: Option<nat>)
    requires |theta| >= n
    ensures r.Some? ==> j <= r.value < n && theta[r.value] >= cap &&
                        forall i :: j <= i < r.value ==> theta[i] < cap
    ensures r.None? ==> forall i :: j <= i < n ==> theta[i] < cap
    decreases n - j
  {
    if j >= n then None
    else if theta[j] >= cap then Some(j)
    else FirstAtCap(theta, cap, n, j + 1)
  }

  /** Once one gas holds the whole cap, the rest of the loop changes nothing. */
  lemma {:induction false} OneHotStays(n: nat, j0: nat, cap: real, j: nat)
    requires cap > 0.0 && j0 < j
    ensures ClampFrom(OneHot(n, j0, cap), cap, n, j) == OneHot(n, j0, cap)
    decreases n - j
  {
    if j < n {
      OneHotStays(n, j0, cap, j + 1);
    }
  }

  /** The position of the first gas that reaches a positive cap decides the whole clamp. */
  lemma {:induction false} ClampFirstHit(theta: seq<real>, cap: real, n: nat, j: nat)
    requires cap > 0.0 && |theta| >= n
    ensures ClampFrom(theta, cap, n, j) ==
            match FirstAtCap(theta, cap, n, j)
            case None => theta
            case Some(h) => OneHot(n, h, cap)
    decreases n - j
  {
    if j < n {
      if theta[j] >= cap {
        OneHotStays(n, j, cap, j + 1);
      } else {
        ClampFirstHit(theta, cap, n, j + 1);
      }
    }
  }

  /** The clamp loop as the source runs it, on a copy of the solver's root. */
  method Clamp(root: seq<real>, cap: real, n: nat) returns (theta: seq<real>)
    requires |root| >= n
    ensures theta == ClampFrom(root, cap, n, 0)
  {
    theta := root;
    var j := 0;
    while j < n
      invariant 0 <= j <= n && |theta| >= n
      invariant ClampFrom(theta, cap, n, j) == ClampFrom(root, cap, n, 0)
    {
      if theta[j] >= cap {
        theta := OneHot(n, j, cap);
      }
      j := j + 1;
    }
  }

  /** The coverage written for a face: the first n entries of the clamped root. */
  function FaceCoverage(root: seq<real>, cap: real, n: nat): (r: seq<real>)
    requires |root| >= n
    ensures |r| == n
  {
    ClampFrom(root, cap, n, 0)[..n]
  }

  /**
   * With a positive cap and a positive root, every coverage lies in (0, cap)
   * or is exactly the one-gas vector at the cap; in both cases it lies in
   * [0, cap].
   */
  lemma CoverageWithinCap(root: seq<real>, cap: real, n: nat)
    requires cap > 0.0 && |root| >= n
    requires forall i :: 0 <= i < n ==> root[i] > 0.0
    ensures forall k :: 0 <= k < n ==> 0.0 <= FaceCoverage(root, cap, n)[k] <= cap
    ensures FirstAtCap(root, cap, n, 0).None? ==> FaceCoverage(root, cap, n) == root[..n]
    ensures FirstAtCap(root, cap, n, 0).Some? ==>
              FaceCoverage(root, cap, n) == OneHot(n, FirstAtCap(root, cap, n, 0).value, cap)
  {
    ClampFirstHit(root, cap, n, 0);
  }
}

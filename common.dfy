/** Types and small helpers shared by every part of the model. */
module Common {

  datatype Option<T> = None | Some(value: T)

  /**
   * How a Python call ends: with a value, with the named exception, or having
   * produced a value numpy carries as inf or nan, which the model does not follow.
   */
  datatype Outcome<T> = Ok(value: T) | Raised(error: string) | NonFinite

  /** Boltzmann constant in eV/K, as the engine writes it. */
  const KB: real := 0.000086173303
  /** Reference pressure in Pa. */
  const P0: real := 100000.0

  /** A point of the lattice or of the particle, in Angstrom. */
  datatype Point = Point(x: real, y: real, z: real)

  /** A crystal plane normal (h, k, l) as produced by the symmetry expander. */
  type Plane = (int, int, int)

  function Add(p: Point, q: Point): Point
  {
    Point(p.x + q.x, p.y + q.y, p.z + q.z)
  }

  function Sub(p: Point, q: Point): Point
  {
    Point(p.x - q.x, p.y - q.y, p.z - q.z)
  }

  function Scale(c: real, p: Point): Point
  {
    Point(c * p.x, c * p.y, c * p.z)
  }

  function Dot(p: Point, q: Point): real
  {
    p.x * q.x + p.y * q.y + p.z * q.z
  }

  function PlanePoint(pl: Plane): Point
  {
    Point(pl.0 as real, pl.1 as real, pl.2 as real)
  }

  const Origin := Point(0.0, 0.0, 0.0)

  /** Component-wise sum of a sequence of points (numpy's `np.sum(xyz, axis=0)`). */
  function PointSum(s: seq<Point>): Point
  {
    if s == [] then Origin else Add(PointSum(s[..|s| - 1]), s[|s| - 1])
  }

  /** Every point of `s` minus `c`. */
  function Shifted(s: seq<Point>, c: Point): (r: seq<Point>)
    ensures |r| == |s|
    ensures forall i :: 0 <= i < |s| ==> r[i] == Sub(s[i], c)
  {
    seq(|s|, i requires 0 <= i < |s| => Sub(s[i], c))
  }

  lemma {:induction false} PointSumShifted(s: seq<Point>, c: Point)
    ensures PointSum(Shifted(s, c)) == Sub(PointSum(s), Scale(|s| as real, c))
  {
    if s != [] {
      var n := |s|;
      var r := Shifted(s, c);
      assert r[..n - 1] == Shifted(s[..n - 1], c);
      PointSumShifted(s[..n - 1], c);
      ScaleSucc((n - 1) as real, c);
      assert PointSum(r) == Add(Sub(PointSum(s[..n - 1]), Scale((n - 1) as real, c)), Sub(s[n - 1], c));
    }
  }

  lemma ScaleSucc(k: real, c: Point)
    ensures Scale(k + 1.0, c) == Add(Scale(k, c), c)
  {
    assert (k + 1.0) * c.x == k * c.x + c.x;
    assert (k + 1.0) * c.y == k * c.y + c.y;
    assert (k + 1.0) * c.z == k * c.z + c.z;
  }

  /** Subtracting the centroid leaves a point set whose every axis sums to zero. */
  lemma CentredSumsToZero(s: seq<Point>)
    requires |s| > 0
    ensures PointSum(Shifted(s, Scale(1.0 / |s| as real, PointSum(s)))) == Origin
  {
    var n := |s| as real;
    var c := Scale(1.0 / n, PointSum(s));
    PointSumShifted(s, c);
    assert n * (1.0 / n) == 1.0;
  }

  function SumReal(s: seq<real>): real
  {
    if s == [] then 0.0 else SumReal(s[..|s| - 1]) + s[|s| - 1]
  }

  function SumInt(s: seq<int>): int
  {
    if s == [] then 0 else SumInt(s[..|s| - 1]) + s[|s| - 1]
  }

  /** Python's `int(r)` on a float: truncation toward zero. */
  function Trunc(r: real): (n: int)
    ensures r >= 0.0 ==> n as real <= r < n as real + 1.0
    ensures r < 0.0 ==> n as real - 1.0 < r <= n as real
  {
    if r >= 0.0 then r.Floor else -((-r).Floor)
  }

  /** Number of iterations of Python's `range(n)`. */
  function RangeLen(n: int): nat
  {
    if n < 0 then 0 else n
  }

  /** Characters Python's `str.strip()` and `str.split()` treat as whitespace (ASCII part). */
  predicate IsSpace(c: char)
  {
    c == ' ' || c == '\t' || c == '\n' || c == '\r' || c == '\U{B}' || c == '\U{C}'
  }

  predicate IsDigit(c: char)
  {
    '0' <= c <= '9'
  }

  function DigitValue(c: char): (d: nat)
    requires IsDigit(c)
    ensures d < 10
  {
    (c as int) - ('0' as int)
  }

  /** Decimal text of an integer, as Python's `str(int)` writes it. */
  function IntText(n: int): (s: string)
    decreases if n < 0 then 1 - n else n
  {
    if n < 0 then "-" + IntText(-n)
    else if n < 10 then [('0' as int + n) as char]
    else IntText(n / 10) + [('0' as int + n % 10) as char]
  }
}

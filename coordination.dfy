/**
 * Coordination analysis of a cut particle: which atoms are neighbours, each
 * atom's coordination number, the generalised coordination number, and the
 * count and mean coordination of the surface atoms.
 */
module Coordination {
  import opened Common

  function SqDist(p: Point, q: Point): real
  {
    (p.x - q.x) * (p.x - q.x) + (p.y - q.y) * (p.y - q.y) + (p.z - q.z) * (p.z - q.z)
  }

  predicate IsSquare(a: seq<seq<bool>>)
  {
    forall i :: 0 <= i < |a| ==> |a[i]| == |a|
  }

  /** Which atoms lie within the threshold of which: entry (i, j) is `dist(i, j) < t`. */
  type Adjacency = a: seq<seq<bool>> | IsSquare(a)

  /** The rows `dist_list < distance_threshold` of every atom, `sqrt` being the square root. */
  function NearMatrix(c: seq<Point>, t: real, sqrt: real -> real): (a: Adjacency)
    ensures |a| == |c|
  {
    seq(|c|, i requires 0 <= i < |c| => seq(|c|, j requires 0 <= j < |c| => sqrt(SqDist(c[i], c[j])) < t))
  }

  predicate Symmetric(a: Adjacency)
  {
    forall i, j :: 0 <= i < |a| && 0 <= j < |a| ==> a[i][j] == a[j][i]
  }

  predicate Reflexive(a: Adjacency)
  {
    forall i :: 0 <= i < |a| ==> a[i][i]
  }

  /** Distance is symmetric, so the neighbour relation is. */
  lemma NearMatrixSymmetric(c: seq<Point>, t: real, sqrt: real -> real)
    ensures Symmetric(NearMatrix(c, t, sqrt))
  {
    var a := NearMatrix(c, t, sqrt);
    forall i, j | 0 <= i < |a| && 0 <= j < |a|
      ensures a[i][j] == a[j][i]
    {
      assert SqDist(c[i], c[j]) == SqDist(c[j], c[i]);
    }
  }

  /** Every atom is within reach of itself when the threshold exceeds the root of zero. */
  lemma NearMatrixReflexive(c: seq<Point>, t: real, sqrt: real -> real)
    requires sqrt(0.0) < t
    ensures Reflexive(NearMatrix(c, t, sqrt))
  {
    var a := NearMatrix(c, t, sqrt);
    forall i | 0 <= i < |a|
      ensures a[i][i]
    {
      assert SqDist(c[i], c[i]) == 0.0;
    }
  }

  /** Number of atoms j < m within the threshold of atom i, atom i included. */
  function NearCount(a: Adjacency, i: nat, m: nat): nat
    requires i < |a| && m <= |a|
  {
    if m == 0 then 0 else NearCount(a, i, m - 1) + (if a[i][m - 1] then 1 else 0)
  }

  /** Indices j < m, j != i, within the threshold of atom i, in increasing order. */
  function Neighbours(a: Adjacency, i: nat, m: nat): (r: seq<nat>)
    requires i < |a| && m <= |a|
    ensures forall k :: 0 <= k < |r| ==> r[k] < m && r[k] != i && a[i][r[k]]
  {
    if m == 0 then []
    else Neighbours(a, i, m - 1) + (if m - 1 != i && a[i][m - 1] then [m - 1] else [])
  }

  /** The source's coordination number: atoms within the threshold, less one for the atom itself. */
  function CoordNumber(a: Adjacency, i: nat): int
    requires i < |a|
  {
    NearCount(a, i, |a|) - 1
  }

  /** Number of neighbours, the first column of the neighbour matrix. */
  function Degree(a: Adjacency, i: nat): nat
    requires i < |a|
  {
    |Neighbours(a, i, |a|)|
  }

  lemma {:induction false} NearCountSplit(a: Adjacency, i: nat, m: nat)
    requires i < |a| && m <= |a|
    ensures NearCount(a, i, m) == |Neighbours(a, i, m)| + (if i < m && a[i][i] then 1 else 0)
  {
    if m > 0 {
      NearCountSplit(a, i, m - 1);
    }
  }

  /** Where an atom is within reach of itself, the two counts agree. */
  lemma CoordNumberIsDegree(a: Adjacency, i: nat)
    requires i < |a| && a[i][i]
    ensures CoordNumber(a, i) == Degree(a, i)
  {
    NearCountSplit(a, i, |a|);
  }

  /** Summed degrees of the atoms listed in `ns`. */
  function SumDegrees(a: Adjacency, ns: seq<nat>): nat
    requires forall k :: 0 <= k < |ns| ==> ns[k] < |a|
  {
    if ns == [] then 0 else SumDegrees(a, ns[..|ns| - 1]) + Degree(a, ns[|ns| - 1])
  }

  /** Sum over atom i's neighbours of their coordination: the GCN numerator. */
  function NeighbourDegrees(a: Adjacency, i: nat): nat
    requires i < |a|
  {
    SumDegrees(a, Neighbours(a, i, |a|))
  }

  /** Coordination limit below which an atom counts as surface. */
  function SurfaceLimit(structure: string): int
  {
    if structure == "BCC" then 7 else 10
  }

  /** Bulk coordination dividing the GCN numerator. */
  function BulkCoordination(structure: string): real
  {
    if structure == "BCC" then 8.0 else 12.0
  }

  function CountBelow(s: seq<int>, limit: int): (r: nat)
    ensures r <= |s|
  {
    if s == [] then 0 else CountBelow(s[..|s| - 1], limit) + (if s[|s| - 1] < limit then 1 else 0)
  }

  /** Sum of the degrees of the atoms j < m whose degree is below the limit. */
  function SurfaceDegreeSum(a: Adjacency, limit: int, m: nat): nat
    requires m <= |a|
  {
    if m == 0 then 0
    else SurfaceDegreeSum(a, limit, m - 1) + (if Degree(a, m - 1) < limit then Degree(a, m - 1) else 0)
  }

  function CoordNumbers(a: Adjacency): (r: seq<int>)
    ensures |r| == |a|
  {
    seq(|a|, i requires 0 <= i < |a| => CoordNumber(a, i))
  }

  /**
   * The exception `surf_count` raises on `coors` with bond threshold `t`:
   * ValueError when some atom has more than twelve neighbours, otherwise
   * UnboundLocalError when there are no atoms at all.
   */
  function SurfFailure(coors: seq<Point>, t: real, sqrt: real -> real): Option<string>
  {
    var a := NearMatrix(coors, t, sqrt);
    if exists i :: 0 <= i < |a| && Degree(a, i) > 12 then Some("ValueError")
    else if |coors| == 0 then Some("UnboundLocalError")
    else None
  }

  datatype SurfStats = SurfStats(coorNumber: seq<int>, gcn: seq<real>, nsurf: nat, surfcn: Option<real>)

  /**
   * The coordination analysis of `coors` with bond threshold `t`. An atom with
   * more than twelve neighbours overflows the 13-column neighbour matrix
   * (ValueError); an empty particle leaves the surface count unassigned
   * (UnboundLocalError); no surface atom makes the mean coordination a numpy
   * nan, here `None`.
   */
  method SurfCount(coors: seq<Point>, t: real, sqrt: real -> real, structure: string)
    returns (r: Outcome<SurfStats>)
    ensures SurfFailure(coors, t, sqrt).Some? ==> r == Raised(SurfFailure(coors, t, sqrt).value)
    ensures SurfFailure(coors, t, sqrt).None? ==> r.Ok?
    ensures r.Ok? ==>
      var a := NearMatrix(coors, t, sqrt);
      var s := r.value;
      var limit := SurfaceLimit(structure);
      s.coorNumber == CoordNumbers(a) &&
      |s.gcn| == |a| &&
      (forall i :: 0 <= i < |a| ==> s.gcn[i] == Gcn(a, i, structure)) &&
      s.nsurf == CountBelow(s.coorNumber, limit) &&
      s.surfcn == (if s.nsurf == 0 then None
                   else Some(SurfaceDegreeSum(a, limit, |a|) as real / s.nsurf as real))
  {
    var a := NearMatrix(coors, t, sqrt);
    var n := |a|;
    var table := NeighbourTable(a);
    if table.None? {
      return Raised("ValueError");
    }
    var (coorNumber, cnMat) := table.value;
    var gcn := GcnLoop(a, cnMat, structure);
    if n == 0 {
      return Raised("UnboundLocalError");
    }
    var (nsurf, surfcn) := SurfaceSummary(a, coorNumber, structure);
    r := Ok(SurfStats(coorNumber, gcn, nsurf, surfcn));
  }

  /** Generalised coordination number of atom i: its neighbours' coordinations over the bulk value. */
  function Gcn(a: Adjacency, i: nat, structure: string): real
    requires i < |a|
  {
    var total := NeighbourDegrees(a, i) as real;
    if structure == "BCC" then total / 8.0 else total / 12.0
  }

  /** The surface count and the mean coordination of the surface atoms (nan, here `None`, when there are none). */
  function SurfaceSummary(a: Adjacency, coorNumber: seq<int>, structure: string): (nat, Option<real>)
  {
    var limit := SurfaceLimit(structure);
    var nsurf := CountBelow(coorNumber, limit);
    (nsurf, if nsurf == 0 then None else Some(SurfaceDegreeSum(a, limit, |a|) as real / nsurf as real))
  }

  /**
   * The second loop, over the generalised coordination numbers. Its body
   * also assigns the surface count and mean, which the caller therefore finds
   * unassigned when there is no atom.
   */
  method GcnLoop(a: Adjacency, cnMat: seq<seq<nat>>, structure: string) returns (gcn: seq<real>)
    requires |cnMat| == |a|
    requires forall k :: 0 <= k < |a| ==> cnMat[k] == Neighbours(a, k, |a|)
    ensures |gcn| == |a|
    ensures forall k :: 0 <= k < |a| ==> gcn[k] == Gcn(a, k, structure)
  {
    gcn := [];
    for i := 0 to |a|
      invariant |gcn| == i
      invariant forall k :: 0 <= k < i ==> gcn[k] == Gcn(a, k, structure)
    {
      var g := GcnEntry(a, cnMat, i, structure);
      gcn := gcn + [g];
    }
  }

  /** One GCN entry: the neighbours' coordinations summed and scaled. */
  method GcnEntry(a: Adjacency, cnMat: seq<seq<nat>>, i: nat, structure: string) returns (g: real)
    requires |cnMat| == |a| && i < |a|
    requires forall k :: 0 <= k < |a| ==> cnMat[k] == Neighbours(a, k, |a|)
    ensures g == Gcn(a, i, structure)
  {
    var accum := AccumulateDegrees(a, cnMat, cnMat[i]);
    g := accum as real / BulkCoordination(structure);
  }

  /**
   * The first loop: coordination numbers and neighbour lists, stopping with
   * `None` at the first atom whose list overflows the matrix row.
   */
  method NeighbourTable(a: Adjacency) returns (r: Option<(seq<int>, seq<seq<nat>>)>)
    ensures r.None? <==> exists i :: 0 <= i < |a| && Degree(a, i) > 12
    ensures r.Some? ==> r.value.0 == CoordNumbers(a) && |r.value.1| == |a|
    ensures r.Some? ==> forall k :: 0 <= k < |a| ==> r.value.1[k] == Neighbours(a, k, |a|)
  {
    var n := |a|;
    var coorNumber: seq<int> := [];
    var cnMat: seq<seq<nat>> := [];
    for i := 0 to n
      invariant |coorNumber| == i && |cnMat| == i
      invariant forall k :: 0 <= k < i ==> coorNumber[k] == CoordNumber(a, k)
      invariant forall k :: 0 <= k < i ==> cnMat[k] == Neighbours(a, k, n)
      invariant forall k :: 0 <= k < i ==> Degree(a, k) <= 12
    {
      coorNumber := coorNumber + [CoordNumber(a, i)];
      var icn := Neighbours(a, i, n);
      if |icn| > 12 {
        assert Degree(a, i) > 12;
        return None;
      }
      cnMat := cnMat + [icn];
    }
    return Some((coorNumber, cnMat));
  }

  /** The inner loop summing the first column of the neighbours' rows. */
  method AccumulateDegrees(a: Adjacency, cnMat: seq<seq<nat>>, line: seq<nat>) returns (accum: nat)
    requires |cnMat| == |a|
    requires forall k :: 0 <= k < |a| ==> cnMat[k] == Neighbours(a, k, |a|)
    requires forall k :: 0 <= k < |line| ==> line[k] < |a|
    ensures accum == SumDegrees(a, line)
  {
    accum := 0;
    for j := 0 to |line|
      invariant accum == SumDegrees(a, line[..j])
    {
      assert line[..j + 1][..j] == line[..j];
      accum := accum + |cnMat[line[j]]|;
    }
    assert line[..|line|] == line;
  }

  // ------------------------------------------------------------ handshake

  /** Degree of atom i counted over the atoms j < m only. */
  function DegreeUpTo(a: Adjacency, i: nat, m: nat): nat
    requires i < |a| && m <= |a|
  {
    |Neighbours(a, i, m)|
  }

  /** Sum of DegreeUpTo(i, m) over i < k. */
  function DegreeSum(a: Adjacency, m: nat, k: nat): nat
    requires m <= |a| && k <= |a|
  {
    if k == 0 then 0 else DegreeSum(a, m, k - 1) + DegreeUpTo(a, k - 1, m)
  }

  /** Number of atoms i < k that have atom m as a neighbour. */
  function NearOf(a: Adjacency, m: nat, k: nat): nat
    requires m < |a| && k <= |a|
  {
    if k == 0 then 0 else NearOf(a, m, k - 1) + (if k - 1 != m && a[k - 1][m] then 1 else 0)
  }

  lemma {:induction false} DegreeSumGrow(a: Adjacency, m: nat, k: nat)
    requires m < |a| && k <= m
    ensures DegreeSum(a, m + 1, k) == DegreeSum(a, m, k) + NearOf(a, m, k)
  {
    if k > 0 {
      DegreeSumGrow(a, m, k - 1);
    }
  }

  lemma {:induction false} NearOfIsDegree(a: Adjacency, m: nat, k: nat)
    requires Symmetric(a) && m < |a| && k <= m
    ensures NearOf(a, m, k) == DegreeUpTo(a, m, k)
  {
    if k > 0 {
      NearOfIsDegree(a, m, k - 1);
      assert a[k - 1][m] == a[m][k - 1];
    }
  }

  /** Number of neighbour pairs j < i among the atoms before m. */
  function PairsUpTo(a: Adjacency, m: nat): nat
    requires m <= |a|
  {
    if m == 0 then 0 else PairsUpTo(a, m - 1) + DegreeUpTo(a, m - 1, m - 1)
  }

  lemma {:induction false} HandshakeUpTo(a: Adjacency, m: nat)
    requires Symmetric(a) && m <= |a|
    ensures DegreeSum(a, m, m) == 2 * PairsUpTo(a, m)
  {
    if m > 0 {
      var p := m - 1;
      HandshakeUpTo(a, p);
      DegreeSumGrow(a, p, p);
      NearOfIsDegree(a, p, p);
      assert DegreeUpTo(a, p, m) == DegreeUpTo(a, p, p);
    }
  }

  /**
   * Every neighbour pair is counted from both ends, so the first column of the
   * neighbour matrix sums to an even number.
   */
  lemma Handshake(c: seq<Point>, t: real, sqrt: real -> real)
    ensures var a := NearMatrix(c, t, sqrt); DegreeSum(a, |a|, |a|) == 2 * PairsUpTo(a, |a|)
  {
    NearMatrixSymmetric(c, t, sqrt);
    HandshakeUpTo(NearMatrix(c, t, sqrt), |c|);
  }

  // ------------------------------------------------------------ surface mean

  lemma {:induction false} SurfaceSumBound(a: Adjacency, limit: int, m: nat)
    requires m <= |a| && Reflexive(a)
    ensures SurfaceDegreeSum(a, limit, m) <= (limit - 1) * CountBelow(CoordNumbers(a)[..m], limit)
  {
    if m > 0 {
      SurfaceSumBound(a, limit, m - 1);
      var cn := CoordNumbers(a);
      assert cn[..m][..m - 1] == cn[..m - 1];
      assert cn[..m][m - 1] == cn[m - 1];
      CoordNumberIsDegree(a, m - 1);
      var d := Degree(a, m - 1);
      assert cn[m - 1] == d;
      BoundStep(SurfaceDegreeSum(a, limit, m - 1), CountBelow(cn[..m - 1], limit),
                SurfaceDegreeSum(a, limit, m), CountBelow(cn[..m], limit), d, limit);
    }
  }

  /** One step of the bound: adding an entry below the limit adds at most limit - 1. */
  lemma BoundStep(s0: int, c0: int, s1: int, c1: int, d: int, limit: int)
    requires d >= 0 && s0 <= (limit - 1) * c0
    requires s1 == s0 + (if d < limit then d else 0)
    requires c1 == c0 + (if d < limit then 1 else 0)
    ensures s1 <= (limit - 1) * c1
  {
    if d < limit {
      assert (limit - 1) * c1 == (limit - 1) * c0 + (limit - 1);
    }
  }

  /**
   * When the threshold exceeds the zero self-distance, the mean coordination
   * of the surface atoms lies below the surface limit: it averages only
   * coordinations below it.
   */
  lemma SurfaceMeanBelowLimit(c: seq<Point>, t: real, sqrt: real -> real, structure: string)
    requires sqrt(0.0) < t
    requires CountBelow(CoordNumbers(NearMatrix(c, t, sqrt)), SurfaceLimit(structure)) > 0
    ensures var a := NearMatrix(c, t, sqrt);
      SurfaceDegreeSum(a, SurfaceLimit(structure), |a|) as real /
      CountBelow(CoordNumbers(a), SurfaceLimit(structure)) as real < SurfaceLimit(structure) as real
  {
    var a := NearMatrix(c, t, sqrt);
    NearMatrixReflexive(c, t, sqrt);
    var limit := SurfaceLimit(structure);
    var cn := CoordNumbers(a);
    SurfaceSumBound(a, limit, |a|);
    assert cn[..|a|] == cn;
    MeanBelow(SurfaceDegreeSum(a, limit, |a|), CountBelow(cn, limit), limit);
  }

  lemma MeanBelow(s: int, k: int, limit: int)
    requires k > 0 && s <= (limit - 1) * k
    ensures s as real / k as real < limit as real
  {
    var sr, kr := s as real, k as real;
    assert ((limit - 1) * k) as real == (limit - 1) as real * kr;
    assert sr / kr * kr == sr;
  }
}

/**
 * The older copy of the engine driven by the tkinter front end, where it
 * differs from the main one: `surf_count` sorts the surface atoms into
 * buckets, the face-area test divides instead of taking the parity, and
 * `geometry` answers a bare 0 or 1. Everything else it shares (`hcf`,
 * `get_planes`, `make_grid`, `gen_fcc`, `gen_bcc`, `gen_cluster` returning
 * coordinates, `gen_surface_energies` less the plane dictionary) is the model
 * in the other modules.
 */
module CustomMsr {
  import opened Common
  import Coordination
  import Lattice
  import Params
  import Msr

  // ------------------------------------------------------------ surf_count

  /** Where the bucket loop puts an atom: by its coordination and the summed coordination of its neighbours. */
  datatype Bucket = Face110 | Edge110111 | Edge100111 | Edge100110 | Corner | Unbucketed

  function BucketOf(cn: int, accum: int): Bucket
  {
    if cn == 7 then
      if accum >= 68 then Face110 else if accum >= 65 then Edge110111 else Edge100111
    else if cn == 6 then
      if accum >= 56 then Edge100110 else Corner
    else Unbucketed
  }

  /** Atoms j < m in bucket b. */
  function CountBucket(cn: seq<int>, accum: seq<int>, b: Bucket, m: nat): nat
    requires m <= |cn| == |accum|
  {
    if m == 0 then 0 else CountBucket(cn, accum, b, m - 1) + (if BucketOf(cn[m - 1], accum[m - 1]) == b then 1 else 0)
  }

  /** `np.sum(coor_number == v)`. */
  function CountEqual(s: seq<int>, v: int): nat
  {
    if s == [] then 0 else CountEqual(s[..|s| - 1], v) + (if s[|s| - 1] == v then 1 else 0)
  }

  datatype BucketCounts = BucketCounts(n110: nat, e110111: nat, e100111: nat, e100110: nat, conner: nat)

  function BucketTotals(cn: seq<int>, accum: seq<int>): BucketCounts
    requires |cn| == |accum|
  {
    var n := |cn|;
    BucketCounts(CountBucket(cn, accum, Face110, n), CountBucket(cn, accum, Edge110111, n),
                 CountBucket(cn, accum, Edge100111, n), CountBucket(cn, accum, Edge100110, n),
                 CountBucket(cn, accum, Corner, n))
  }

  /** The loop over the coordination numbers incrementing one counter per bucketed atom. */
  method BucketLoop(cn: seq<int>, accum: seq<int>) returns (c: BucketCounts)
    requires |cn| == |accum|
    ensures c == BucketTotals(cn, accum)
  {
    var n110, e110111, e100111, e100110, conner := 0, 0, 0, 0, 0;
    for i := 0 to |cn|
      invariant n110 == CountBucket(cn, accum, Face110, i)
      invariant e110111 == CountBucket(cn, accum, Edge110111, i)
      invariant e100111 == CountBucket(cn, accum, Edge100111, i)
      invariant e100110 == CountBucket(cn, accum, Edge100110, i)
      invariant conner == CountBucket(cn, accum, Corner, i)
    {
      if cn[i] == 7 {
        if accum[i] >= 68 {
          n110 := n110 + 1;
        } else if accum[i] >= 65 {
          e110111 := e110111 + 1;
        } else {
          e100111 := e100111 + 1;
        }
      } else if cn[i] == 6 {
        if accum[i] >= 56 {
          e100110 := e100110 + 1;
        } else {
          conner := conner + 1;
        }
      }
    }
    c := BucketCounts(n110, e110111, e100111, e100110, conner);
  }

  /** The coordination-7 buckets split the atoms of coordination 7, the coordination-6 buckets those of 6. */
  lemma {:induction false} BucketsPartition(cn: seq<int>, accum: seq<int>, m: nat)
    requires m <= |cn| == |accum|
    ensures CountBucket(cn, accum, Face110, m) + CountBucket(cn, accum, Edge110111, m)
            + CountBucket(cn, accum, Edge100111, m) == CountEqual(cn[..m], 7)
    ensures CountBucket(cn, accum, Edge100110, m) + CountBucket(cn, accum, Corner, m) == CountEqual(cn[..m], 6)
  {
    if m > 0 {
      BucketsPartition(cn, accum, m - 1);
      assert cn[..m][..m - 1] == cn[..m - 1];
    }
  }

  /** Below 10 means below 6, or exactly 6, 7, 8 or 9. */
  lemma {:induction false} BelowTenSplit(s: seq<int>)
    ensures Coordination.CountBelow(s, 10) == Coordination.CountBelow(s, 6) + CountEqual(s, 6) + CountEqual(s, 7)
                                             + CountEqual(s, 8) + CountEqual(s, 9)
  {
    if s != [] {
      BelowTenSplit(s[..|s| - 1]);
    }
  }

  datatype SurfBuckets = SurfBuckets(n100: nat, n110: nat, n111: nat, e100110: nat, e100111: nat, e110111: nat,
                                     conner: nat, nedge: int, nsurf: nat, ntotal: nat, surfcn: Option<real>)

  /** The summed coordination of each atom's neighbours (`accum_cn_mat`). */
  function Accumulated(a: Coordination.Adjacency): (r: seq<int>)
    ensures |r| == |a|
  {
    seq(|a|, i requires 0 <= i < |a| => Coordination.NeighbourDegrees(a, i) as int)
  }

  /**
   * What `surf_count` returns for the adjacency `a`: facet counts by
   * coordination 8 and 9, the buckets, the edge figure as surface less
   * facets, and the mean coordination of the surface atoms (numpy's nan,
   * here `None`, when there is none).
   */
  function Summary(a: Coordination.Adjacency): SurfBuckets
  {
    var cn := Coordination.CoordNumbers(a);
    var c := BucketTotals(cn, Accumulated(a));
    var n100, n111, nsurf := CountEqual(cn, 8), CountEqual(cn, 9), Coordination.CountBelow(cn, 10);
    SurfBuckets(n100, c.n110, n111, c.e100110, c.e100111, c.e110111, c.conner,
                nsurf - n100 - c.n110 - n111, nsurf, |a|,
                if nsurf == 0 then None
                else Some(Coordination.SurfaceDegreeSum(a, 10, |a|) as real / nsurf as real))
  }

  /**
   * `surf_count` of this copy: the neighbour table (ValueError when an atom
   * has more than twelve neighbours), the neighbours' summed coordination, the
   * bucket loop and the summary. An empty particle is no error here.
   */
  method SurfCount(coors: seq<Point>, t: real, sqrt: real -> real) returns (r: Outcome<SurfBuckets>)
    ensures var a := Coordination.NearMatrix(coors, t, sqrt);
      (r == Raised("ValueError") <==> exists i :: 0 <= i < |a| && Coordination.Degree(a, i) > 12) &&
      (r.Raised? || r == Ok(Summary(a)))
  {
    var a := Coordination.NearMatrix(coors, t, sqrt);
    var table := Coordination.NeighbourTable(a);
    if table.None? {
      return Raised("ValueError");
    }
    var (cn, cnMat) := table.value;
    var s := Summarise(a, cn, cnMat);
    r := Ok(s);
  }

  /** Everything after the neighbour table: the accumulation, the counts, the bucket loop and the mean. */
  method Summarise(a: Coordination.Adjacency, cn: seq<int>, cnMat: seq<seq<nat>>) returns (s: SurfBuckets)
    requires cn == Coordination.CoordNumbers(a) && |cnMat| == |a|
    requires forall k :: 0 <= k < |a| ==> cnMat[k] == Coordination.Neighbours(a, k, |a|)
    ensures s == Summary(a)
  {
    var accum := AccumulateAll(a, cnMat);
    var c := BucketLoop(cn, accum);
    var n100, n111, nsurf := CountEqual(cn, 8), CountEqual(cn, 9), Coordination.CountBelow(cn, 10);
    var surfcn := if nsurf == 0 then None
                  else Some(Coordination.SurfaceDegreeSum(a, 10, |a|) as real / nsurf as real);
    s := SurfBuckets(n100, c.n110, n111, c.e100110, c.e100111, c.e110111, c.conner,
                     nsurf - n100 - c.n110 - n111, nsurf, |a|, surfcn);
  }

  /** The loop filling `accum_cn_mat` from the first column of each neighbour's row. */
  method AccumulateAll(a: Coordination.Adjacency, cnMat: seq<seq<nat>>) returns (accum: seq<int>)
    requires |cnMat| == |a|
    requires forall k :: 0 <= k < |a| ==> cnMat[k] == Coordination.Neighbours(a, k, |a|)
    ensures accum == Accumulated(a)
  {
    ghost var all := Accumulated(a);
    accum := [];
    for i := 0 to |a|
      invariant accum == all[..i]
    {
      var s := AccumulateEntry(a, cnMat, i);
      assert all[..i + 1] == all[..i] + [all[i]];
      accum := accum + [s];
    }
    assert all[..|a|] == all;
  }

  /** One row of `accum_cn_mat`: the first columns of atom i's neighbours' rows, summed. */
  method AccumulateEntry(a: Coordination.Adjacency, cnMat: seq<seq<nat>>, i: nat) returns (s: int)
    requires |cnMat| == |a| && i < |a|
    requires forall k :: 0 <= k < |a| ==> cnMat[k] == Coordination.Neighbours(a, k, |a|)
    ensures s == Accumulated(a)[i]
  {
    var accum := Coordination.AccumulateDegrees(a, cnMat, cnMat[i]);
    s := accum as int;
  }

  /**
   * The edge figure lumps together every surface atom that is on no facet:
   * coordination below 6, both coordination-6 buckets, and the two
   * coordination-7 edge buckets. In particular it is never negative.
   */
  lemma EdgeLumps(a: Coordination.Adjacency)
    ensures var s := Summary(a);
      s.nedge == Coordination.CountBelow(Coordination.CoordNumbers(a), 6) + s.e100110 + s.conner + s.e110111 + s.e100111
    ensures Summary(a).nedge >= 0
  {
    var cn := Coordination.CoordNumbers(a);
    BucketsPartition(cn, Accumulated(a), |cn|);
    assert cn[..|cn|] == cn;
    BelowTenSplit(cn);
  }

  /** Every atom of coordination 7 is a 110 facet atom or on one of the two coordination-7 edges. */
  lemma SevensBucketed(a: Coordination.Adjacency)
    ensures var s := Summary(a);
      s.n110 + s.e110111 + s.e100111 == CountEqual(Coordination.CoordNumbers(a), 7) &&
      s.e100110 + s.conner == CountEqual(Coordination.CoordNumbers(a), 6)
  {
    var cn := Coordination.CoordNumbers(a);
    BucketsPartition(cn, Accumulated(a), |cn|);
    assert cn[..|cn|] == cn;
  }

  // ------------------------------------------------------ the area test

  /**
   * The divisor of the atom area in this copy's `get_para`: `h / 2 != 0` is a
   * true division, so FCC divides by 4 when h, k, l are all nonzero, and BCC
   * by 1 when h + k + l is nonzero.
   */
  function AreaDivisor(structure: string, h: int, k: int, l: int): (div: real)
    requires structure == "FCC" || structure == "BCC"
  {
    if structure == "FCC" then
      if h as real / 2.0 != 0.0 && k as real / 2.0 != 0.0 && l as real / 2.0 != 0.0 then 4.0 else 2.0
    else
      if (h + k + l) as real / 2.0 != 0.0 then 1.0 else 2.0
  }

  /** The branch taken is decided by zero tests, not by parity. */
  lemma AreaDivisorTests(structure: string, h: int, k: int, l: int)
    requires structure == "FCC" || structure == "BCC"
    ensures structure == "FCC" ==> (AreaDivisor(structure, h, k, l) == 4.0 <==> h != 0 && k != 0 && l != 0)
    ensures structure == "FCC" ==> (AreaDivisor(structure, h, k, l) == 2.0 <==> h == 0 || k == 0 || l == 0)
    ensures structure == "BCC" ==> (AreaDivisor(structure, h, k, l) == 1.0 <==> h + k + l != 0)
    ensures structure == "BCC" ==> (AreaDivisor(structure, h, k, l) == 2.0 <==> h + k + l == 0)
  {
  }

  /**
   * This copy and the main engine choose the same divisor exactly when the
   * zero test and the parity test agree: for FCC when some index is zero or
   * all are odd, for BCC when h + k + l is zero or odd. Face 222, say, gets
   * 4 here and 2 there.
   */
  lemma AreaDivisorAgreement(structure: string, h: int, k: int, l: int)
    requires structure == "FCC" || structure == "BCC"
    ensures structure == "FCC" ==>
      (AreaDivisor(structure, h, k, l) == Params.AreaDivisor(structure, h, k, l) <==>
       h == 0 || k == 0 || l == 0 || (h % 2 != 0 && k % 2 != 0 && l % 2 != 0))
    ensures structure == "BCC" ==>
      (AreaDivisor(structure, h, k, l) == Params.AreaDivisor(structure, h, k, l) <==>
       h + k + l == 0 || (h + k + l) % 2 != 0)
  {
    AreaDivisorTests(structure, h, k, l);
    if h == 0 || k == 0 || l == 0 {
      assert h % 2 == 0 || k % 2 == 0 || l % 2 == 0;
    }
    if h + k + l == 0 {
      assert (h + k + l) % 2 == 0;
    }
  }

  /**
   * The atom area of one face as this copy's `get_para` computes it: h, k, l
   * are the first three characters of the face string (IndexError or
   * ValueError otherwise); HCP divides by the never-set `latt_para_c`, 0.0,
   * and raises ZeroDivisionError; any other structure leaves the area unbound.
   */
  function FaceArea(face: string, structure: string, a: real, sqrt: real -> real): (r: Outcome<real>)
  {
    match Lattice.ParseIndexChars(face)
    case None => Raised(Lattice.GetPlanesError(face))
    case Some((h, k, l)) =>
      if structure == "FCC" || structure == "BCC" then
        Ok(a * a * sqrt(Params.NormSquared(h, k, l) as real) / AreaDivisor(structure, h, k, l))
      else if structure == "HCP" then Raised("ZeroDivisionError")
      else Raised("UnboundLocalError")
  }

  /** The area times its divisor is a^2 times the index norm, and only a cubic structure with a readable face gets one. */
  lemma FaceAreaMeaning(face: string, structure: string, a: real, sqrt: real -> real)
    ensures FaceArea(face, structure, a, sqrt).Ok? <==>
      Lattice.ParseIndexChars(face).Some? && (structure == "FCC" || structure == "BCC")
    ensures FaceArea(face, structure, a, sqrt).Ok? ==>
      var (h, k, l) := Lattice.ParseIndexChars(face).value;
      FaceArea(face, structure, a, sqrt).value * AreaDivisor(structure, h, k, l)
        == a * a * sqrt(Params.NormSquared(h, k, l) as real)
    ensures !FaceArea(face, structure, a, sqrt).NonFinite?
  {
  }

  // ------------------------------------------------------------ geometry

  /** The exception `int()` raises on `dim / 0.0`: nan for a zero side, an infinity otherwise. */
  function RepsError(dim: real): string
  {
    if dim == 0.0 then "ValueError" else "OverflowError"
  }

  /**
   * What this copy's `geometry` returns once the corrected energies and the
   * plane energies are known: 0 for a non-positive corrected energy, the
   * ValueError of the minimum of nothing, and otherwise 1 after building the
   * bulk. Building fails in `int(dim / latt_param)` when the lattice
   * constant is zero, always for HCP (`latt_para_c` stays 0.0), and on an
   * unknown structure the bulk is unbound.
   */
  function GeometryFlag(revisedGamma: seq<real>, energies: seq<real>, structure: string, lattA: real, d: real)
    : (r: Outcome<int>)
  {
    match Msr.StageOf(revisedGamma, energies)
    case BrokenEnergies => Ok(0)
    case NoPlanes => Raised("ValueError")
    case Proceed =>
      if Msr.MinOf(energies) == 0.0 then NonFinite
      else
        var dim := Msr.MinOf(Msr.Lengths(energies, d)) * 3.0;
        if structure == "FCC" || structure == "BCC" then
          if lattA == 0.0 then Raised(RepsError(dim)) else Ok(1)
        else if structure == "HCP" then Raised(RepsError(dim))
        else Raised("UnboundLocalError")
  }

  /**
   * The 0 answer is exactly the main engine's broken-particle report, and for
   * a cubic structure with a nonzero lattice constant and positive plane
   * energies the 1 answer is exactly the main engine going on to the cut.
   */
  lemma GeometryFlagGate(revisedGamma: seq<real>, energies: seq<real>, structure: string, lattA: real, d: real)
    ensures GeometryFlag(revisedGamma, energies, structure, lattA, d) == Ok(0) <==>
      exists m :: 0 <= m < |revisedGamma| && revisedGamma[m] <= 0.0
    ensures ((structure == "FCC" || structure == "BCC") && lattA != 0.0 &&
             forall q :: 0 <= q < |energies| ==> energies[q] > 0.0) ==>
      (GeometryFlag(revisedGamma, energies, structure, lattA, d) == Ok(1) <==>
       Msr.StageOf(revisedGamma, energies) == Msr.Proceed)
  {
    if Msr.StageOf(revisedGamma, energies) == Msr.Proceed && (forall q :: 0 <= q < |energies| ==> energies[q] > 0.0) {
      Msr.MinOfIsMinimum(energies);
    }
  }
}

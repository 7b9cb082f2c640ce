/**
 * Cutting the particle out of the bulk lattice: an atom is kept when, for
 * every plane, its projection on the plane's unit normal does not exceed that
 * plane's Wulff length.
 */
module Cluster {
  import opened Common

  /** Every row of `m` has `cols` entries. */
  predicate IsMatrix(m: seq<seq<real>>, cols: nat)
  {
    forall i :: 0 <= i < |m| ==> |m[i]| == cols
  }

  /** Euclidean norm of a plane's Miller vector, `sqrt` being the square root. */
  function PlaneNorm(pl: Plane, sqrt: real -> real): real
  {
    sqrt(Dot(PlanePoint(pl), PlanePoint(pl)))
  }

  predicate NonZeroNorms(planes: seq<Plane>, sqrt: real -> real)
  {
    forall p :: 0 <= p < |planes| ==> PlaneNorm(planes[p], sqrt) != 0.0
  }

  /** The projection matrix: entry (i, p) is atom i's signed distance along plane p's normal. */
  function Projections(bulk: seq<Point>, planes: seq<Plane>, sqrt: real -> real): (d: seq<seq<real>>)
    requires NonZeroNorms(planes, sqrt)
    ensures |d| == |bulk| && IsMatrix(d, |planes|)
  {
    seq(|bulk|, i requires 0 <= i < |bulk| =>
      seq(|planes|, p requires 0 <= p < |planes| =>
        Dot(bulk[i], PlanePoint(planes[p])) / PlaneNorm(planes[p], sqrt)))
  }

  /** An atom's row lies on the inner side of every plane. */
  predicate UnderPlanes(row: seq<real>, length: seq<real>)
    requires |row| == |length|
  {
    forall p :: 0 <= p < |row| ==> row[p] <= length[p]
  }

  predicate StrictlyIncreasing(s: seq<nat>)
  {
    forall j, k :: 0 <= j < k < |s| ==> s[j] < s[k]
  }

  /**
   * The indices i < n of the atoms under every plane, in increasing order:
   * the mask `sum(distance > length, axis=1) == 0` applied to `arange`.
   */
  function UnderIndices(distance: seq<seq<real>>, length: seq<real>, n: nat): (r: seq<nat>)
    requires n <= |distance| && IsMatrix(distance, |length|)
    ensures StrictlyIncreasing(r) && |r| <= n
    ensures forall k :: 0 <= k < |r| ==> r[k] < n
    ensures forall i :: 0 <= i < n ==> (i in r <==> UnderPlanes(distance[i], length))
  {
    if n == 0 then []
    else
      var front := UnderIndices(distance, length, n - 1);
      if UnderPlanes(distance[n - 1], length) then front + [n - 1] else front
  }

  /**
   * The cut of the utility module: the projection matrix and the kept
   * indices.
   */
  function GenCluster(bulk: seq<Point>, planes: seq<Plane>, length: seq<real>, sqrt: real -> real)
    : (r: (seq<seq<real>>, seq<nat>))
    requires NonZeroNorms(planes, sqrt) && |length| == |planes|
    ensures r.0 == Projections(bulk, planes, sqrt)
    ensures StrictlyIncreasing(r.1)
    ensures forall k :: 0 <= k < |r.1| ==> r.1[k] < |bulk|
  {
    var distance := Projections(bulk, planes, sqrt);
    (distance, UnderIndices(distance, length, |bulk|))
  }

  /** An atom is kept exactly when its projection on every plane's unit normal is within that plane's length. */
  lemma GenClusterKeeps(bulk: seq<Point>, planes: seq<Plane>, length: seq<real>, sqrt: real -> real)
    requires NonZeroNorms(planes, sqrt) && |length| == |planes|
    ensures var valid := GenCluster(bulk, planes, length, sqrt).1;
      forall i :: 0 <= i < |bulk| ==>
        (i in valid <==> forall p :: 0 <= p < |planes| ==>
           Dot(bulk[i], PlanePoint(planes[p])) / PlaneNorm(planes[p], sqrt) <= length[p])
  {
    var distance := Projections(bulk, planes, sqrt);
    forall i | 0 <= i < |bulk|
      ensures UnderPlanes(distance[i], length) <==> forall p :: 0 <= p < |planes| ==>
        Dot(bulk[i], PlanePoint(planes[p])) / PlaneNorm(planes[p], sqrt) <= length[p]
    {
    }
  }

  /** Lengthening any plane never removes an atom from the cut. */
  lemma LongerKeepsAtoms(distance: seq<seq<real>>, short: seq<real>, long: seq<real>)
    requires |short| == |long| && IsMatrix(distance, |short|)
    requires forall p :: 0 <= p < |short| ==> short[p] <= long[p]
    ensures forall i :: i in UnderIndices(distance, short, |distance|) ==>
                        i in UnderIndices(distance, long, |distance|)
  {
    forall i | i in UnderIndices(distance, short, |distance|)
      ensures i in UnderIndices(distance, long, |distance|)
    {
      KeptIsUnder(distance, short, i);
      UnderLonger(distance[i], short, long);
      UnderIsKept(distance, long, i);
    }
  }

  lemma UnderLonger(row: seq<real>, short: seq<real>, long: seq<real>)
    requires |row| == |short| == |long| && UnderPlanes(row, short)
    requires forall p :: 0 <= p < |short| ==> short[p] <= long[p]
    ensures UnderPlanes(row, long)
  {
  }

  /** An atom of the matrix under every plane is kept. */
  lemma UnderIsKept(distance: seq<seq<real>>, length: seq<real>, i: nat)
    requires IsMatrix(distance, |length|) && i < |distance| && UnderPlanes(distance[i], length)
    ensures i in UnderIndices(distance, length, |distance|)
  {
  }

  /** A kept index names an atom of the matrix that lies under every plane. */
  lemma KeptIsUnder(distance: seq<seq<real>>, length: seq<real>, i: nat)
    requires IsMatrix(distance, |length|) && i in UnderIndices(distance, length, |distance|)
    ensures i < |distance| && UnderPlanes(distance[i], length)
  {
    var kept := UnderIndices(distance, length, |distance|);
    var k :| 0 <= k < |kept| && kept[k] == i;
  }

  /**
   * The cut of the customisation module, which returns the kept atoms'
   * coordinates rather than their indices.
   */
  function GenClusterCoordinates(bulk: seq<Point>, planes: seq<Plane>, length: seq<real>, sqrt: real -> real)
    : (r: seq<Point>)
    requires NonZeroNorms(planes, sqrt) && |length| == |planes|
    ensures |r| <= |bulk|
  {
    var valid := GenCluster(bulk, planes, length, sqrt).1;
    seq(|valid|, k requires 0 <= k < |valid| => bulk[valid[k]])
  }

  /** Reference definition: the atoms i < n under every plane, in their original order. */
  function KeptAtoms(bulk: seq<Point>, distance: seq<seq<real>>, length: seq<real>, n: nat): seq<Point>
    requires n <= |bulk| && |distance| == |bulk| && IsMatrix(distance, |length|)
  {
    if n == 0 then []
    else KeptAtoms(bulk, distance, length, n - 1) +
         (if UnderPlanes(distance[n - 1], length) then [bulk[n - 1]] else [])
  }

  lemma {:induction false} KeptAtomsIndexed(bulk: seq<Point>, distance: seq<seq<real>>, length: seq<real>, n: nat)
    requires n <= |bulk| && |distance| == |bulk| && IsMatrix(distance, |length|)
    ensures var valid := UnderIndices(distance, length, n);
      KeptAtoms(bulk, distance, length, n) == seq(|valid|, k requires 0 <= k < |valid| => bulk[valid[k]])
  {
    if n > 0 {
      KeptAtomsIndexed(bulk, distance, length, n - 1);
    }
  }

  /** The coordinates returned are exactly the atoms under every plane, in their original order. */
  lemma GenClusterCoordinatesAreKept(bulk: seq<Point>, planes: seq<Plane>, length: seq<real>, sqrt: real -> real)
    requires NonZeroNorms(planes, sqrt) && |length| == |planes|
    ensures GenClusterCoordinates(bulk, planes, length, sqrt) ==
            KeptAtoms(bulk, Projections(bulk, planes, sqrt), length, |bulk|)
  {
    KeptAtomsIndexed(bulk, Projections(bulk, planes, sqrt), length, |bulk|);
  }
}

/**
 * Surface energies corrected for adsorption, and the flattening of facet
 * families into the plane list and plane-to-face dictionary that the Wulff
 * construction reads.
 */
module Surface {
  import opened Common
  import Coverage
  import Lattice

  // ------------------------------------------------- the revised energy

  /**
   * `coverage[m] . r_ads` with `r_ads = (E_ads[m] - cal_w) / A_atoms[m]`,
   * over the first n gases.
   */
  function Correction(area: real, eAds: seq<real>, calw: seq<real>, cov: seq<real>, n: nat): real
    requires area != 0.0 && |eAds| >= n && |calw| >= n && |cov| >= n
  {
    if n == 0 then 0.0
    else Correction(area, eAds, calw, cov, n - 1) + cov[n - 1] * ((eAds[n - 1] - calw[n - 1]) / area)
  }

  /** The adsorption energy released per atom site, before dividing by the area. */
  function AdsorbedEnergy(eAds: seq<real>, calw: seq<real>, cov: seq<real>, n: nat): real
    requires |eAds| >= n && |calw| >= n && |cov| >= n
  {
    if n == 0 then 0.0
    else AdsorbedEnergy(eAds, calw, cov, n - 1) + cov[n - 1] * (eAds[n - 1] - calw[n - 1])
  }

  /** `revised_gamma[m] = gamma[m] + coverage[m] . (E_ads[m] - w[m] coverage[m]) / A_atoms[m]`. */
  function RevisedGamma(gamma: real, area: real, eAds: seq<real>, w: seq<seq<real>>, cov: seq<real>, n: nat): real
    requires area != 0.0 && |eAds| >= n && |cov| >= n && Coverage.Square(w, n)
  {
    gamma + Correction(area, eAds, Coverage.CalW(w, cov, n), cov, n)
  }

  lemma DivideSum(x: real, c: real, y: real, area: real)
    requires area != 0.0
    ensures x / area + c * (y / area) == (x + c * y) / area
  {
    var q1 := x / area;
    var q2 := y / area;
    assert q1 * area == x;
    assert q2 * area == y;
    assert (q1 + c * q2) * area == x + c * y;
  }

  /** The correction is the adsorbed energy spread over the atom area. */
  lemma {:induction false} CorrectionIsEnergyOverArea(area: real, eAds: seq<real>, calw: seq<real>, cov: seq<real>, n: nat)
    requires area != 0.0 && |eAds| >= n && |calw| >= n && |cov| >= n
    ensures Correction(area, eAds, calw, cov, n) == AdsorbedEnergy(eAds, calw, cov, n) / area
  {
    if n > 0 {
      CorrectionIsEnergyOverArea(area, eAds, calw, cov, n - 1);
      DivideSum(AdsorbedEnergy(eAds, calw, cov, n - 1), cov[n - 1], eAds[n - 1] - calw[n - 1], area);
    }
  }

  lemma {:induction false} BareEnergy(eAds: seq<real>, calw: seq<real>, cov: seq<real>, n: nat)
    requires |eAds| >= n && |calw| >= n && |cov| >= n
    requires forall k :: 0 <= k < n ==> cov[k] == 0.0
    ensures AdsorbedEnergy(eAds, calw, cov, n) == 0.0
  {
    if n > 0 {
      BareEnergy(eAds, calw, cov, n - 1);
    }
  }

  /** A face with no coverage keeps its clean surface energy. */
  lemma BareFaceKeepsGamma(gamma: real, area: real, eAds: seq<real>, w: seq<seq<real>>, cov: seq<real>, n: nat)
    requires area != 0.0 && |eAds| >= n && |cov| >= n && Coverage.Square(w, n)
    requires forall k :: 0 <= k < n ==> cov[k] == 0.0
    ensures RevisedGamma(gamma, area, eAds, w, cov, n) == gamma
  {
    var calw := Coverage.CalW(w, cov, n);
    CorrectionIsEnergyOverArea(area, eAds, calw, cov, n);
    BareEnergy(eAds, calw, cov, n);
  }

  /**
   * With every lateral interaction zero the correction is the plain
   * coverage-weighted adsorption energy over the area.
   */
  lemma NoInteractionCorrection(gamma: real, area: real, eAds: seq<real>, w: seq<seq<real>>, cov: seq<real>, n: nat)
    requires area != 0.0 && |eAds| >= n && |cov| >= n && Coverage.Square(w, n)
    requires forall i, j :: 0 <= i < n && 0 <= j < n ==> w[i][j] == 0.0
    ensures RevisedGamma(gamma, area, eAds, w, cov, n) ==
            gamma + AdsorbedEnergy(eAds, seq(n, k => 0.0), cov, n) / area
  {
    var calw := Coverage.CalW(w, cov, n);
    var zero := seq(n, k => 0.0);
    forall k | 0 <= k < n
      ensures calw[k] == 0.0
    {
      Coverage.RowDotZero(cov, w[k], n);
      RowDotSwap(w[k], cov, n);
    }
    assert calw == zero;
    CorrectionIsEnergyOverArea(area, eAds, calw, cov, n);
  }

  lemma {:induction false} RowDotSwap(row: seq<real>, v: seq<real>, n: nat)
    requires |row| >= n && |v| >= n
    ensures Coverage.RowDot(row, v, n) == Coverage.RowDot(v, row, n)
  {
    if n > 0 {
      RowDotSwap(row, v, n - 1);
    }
  }

  // ------------------------------------------------- facet families

  /**
   * The planes `get_planes` lists for a face (as a set: the list's order is
   * left open); none when it raises.
   */
  function FamilyOf(index: string, structure: string): set<Plane>
  {
    match Lattice.PlanesOf(index, structure)
    case Ok(s) => s
    case _ => {}
  }

  /**
   * `planes_dict` after the faces before n: each face writes its own string
   * under every plane of its family, overwriting earlier faces.
   */
  function PlanesDict(faceIndex: seq<string>, structure: string, n: nat): (d: map<Plane, string>)
    requires n <= |faceIndex|
  {
    if n == 0 then map[]
    else
      var family, face := FamilyOf(faceIndex[n - 1], structure), faceIndex[n - 1];
      PlanesDict(faceIndex, structure, n - 1) + map p | p in family :: face
  }

  /** A plane is a key exactly when some face's family holds it. */
  lemma {:induction false} PlanesDictKeys(faceIndex: seq<string>, structure: string, n: nat, p: Plane)
    requires n <= |faceIndex|
    ensures p in PlanesDict(faceIndex, structure, n) <==>
            exists m :: 0 <= m < n && p in FamilyOf(faceIndex[m], structure)
  {
    if p in PlanesDict(faceIndex, structure, n) {
      PlanesDictValues(faceIndex, structure, n, p);
    }
    if exists m :: 0 <= m < n && p in FamilyOf(faceIndex[m], structure) {
      var m :| 0 <= m < n && p in FamilyOf(faceIndex[m], structure);
      KeyOfFamily(faceIndex, structure, n, m, p);
    }
  }

  /** A plane of face m's family is a key once face m has been entered. */
  lemma {:induction false} KeyOfFamily(faceIndex: seq<string>, structure: string, n: nat, m: nat, p: Plane)
    requires m < n <= |faceIndex| && p in FamilyOf(faceIndex[m], structure)
    ensures p in PlanesDict(faceIndex, structure, n)
  {
    PlanesDictStep(faceIndex, structure, n - 1, p);
    if m < n - 1 {
      KeyOfFamily(faceIndex, structure, n - 1, m, p);
    }
  }

  /** The face before n adds its family, mapped to itself, over the earlier entries. */
  lemma PlanesDictStep(faceIndex: seq<string>, structure: string, n: nat, p: Plane)
    requires n < |faceIndex|
    ensures p in PlanesDict(faceIndex, structure, n + 1) <==>
            p in PlanesDict(faceIndex, structure, n) || p in FamilyOf(faceIndex[n], structure)
    ensures p in FamilyOf(faceIndex[n], structure) ==> PlanesDict(faceIndex, structure, n + 1)[p] == faceIndex[n]
    ensures p !in FamilyOf(faceIndex[n], structure) && p in PlanesDict(faceIndex, structure, n) ==>
            PlanesDict(faceIndex, structure, n + 1)[p] == PlanesDict(faceIndex, structure, n)[p]
  {
  }

  /** Every value of the dictionary is one of the face strings. */
  lemma {:induction false} PlanesDictValues(faceIndex: seq<string>, structure: string, n: nat, p: Plane)
    requires n <= |faceIndex| && p in PlanesDict(faceIndex, structure, n)
    ensures exists m :: 0 <= m < n && PlanesDict(faceIndex, structure, n)[p] == faceIndex[m] &&
                        p in FamilyOf(faceIndex[m], structure)
  {
    if p !in FamilyOf(faceIndex[n - 1], structure) {
      PlanesDictValues(faceIndex, structure, n - 1, p);
    }
  }

  /** A plane shared by several faces' families maps to the LAST of them. */
  lemma {:induction false} PlanesDictLastWins(faceIndex: seq<string>, structure: string, n: nat, m: nat, p: Plane)
    requires m < n <= |faceIndex| && p in FamilyOf(faceIndex[m], structure)
    requires forall j :: m < j < n ==> p !in FamilyOf(faceIndex[j], structure)
    ensures p in PlanesDict(faceIndex, structure, n) && PlanesDict(faceIndex, structure, n)[p] == faceIndex[m]
  {
    PlanesDictStep(faceIndex, structure, n - 1, p);
    if n - 1 > m {
      PlanesDictLastWins(faceIndex, structure, n - 1, m, p);
      assert p !in FamilyOf(faceIndex[n - 1], structure);
    }
  }

  // ------------------------------------------------- flattening

  /** `planes += plane` over the faces' lists. */
  function Flatten(lists: seq<seq<Plane>>): seq<Plane>
  {
    if lists == [] then [] else Flatten(lists[..|lists| - 1]) + lists[|lists| - 1]
  }

  /** `surface_energies += [revised_gamma[m]] * len(plane)` over the faces' lists. */
  function Repeated(lists: seq<seq<Plane>>, values: seq<real>): (r: seq<real>)
    requires |values| >= |lists|
    ensures |r| == |Flatten(lists)|
  {
    if lists == [] then []
    else Repeated(lists[..|lists| - 1], values) + seq(|lists[|lists| - 1]|, _ => values[|lists| - 1])
  }

  /** The energies repeated for the lists read only the values of those lists' faces. */
  lemma {:induction false} RepeatedPrefix(lists: seq<seq<Plane>>, v: seq<real>, u: seq<real>)
    requires |v| >= |lists| && |u| >= |lists|
    requires forall j :: 0 <= j < |lists| ==> v[j] == u[j]
    ensures Repeated(lists, v) == Repeated(lists, u)
  {
    if lists != [] {
      RepeatedPrefix(lists[..|lists| - 1], v, u);
    }
  }

  /** One more face's list: its planes follow, each carrying that face's energy. */
  lemma RepeatedSnoc(lists: seq<seq<Plane>>, planes: seq<Plane>, v: seq<real>)
    requires |v| > |lists|
    ensures Flatten(lists + [planes]) == Flatten(lists) + planes
    ensures Repeated(lists + [planes], v) == Repeated(lists, v) + seq(|planes|, _ => v[|lists|])
  {
    assert (lists + [planes])[..|lists|] == lists;
  }

  /** The face each flattened position came from. */
  function Owners(lists: seq<seq<Plane>>): (r: seq<nat>)
    ensures |r| == |Flatten(lists)|
    ensures forall q :: 0 <= q < |r| ==> r[q] < |lists|
  {
    if lists == [] then []
    else Owners(lists[..|lists| - 1]) + seq(|lists[|lists| - 1]|, _ => |lists| - 1)
  }

  /**
   * Every flattened plane comes from its owner's list and carries its
   * owner's energy, so the energy list pairs each plane with the revised
   * energy of the face whose family it belongs to.
   */
  lemma {:induction false} FlattenOwners(lists: seq<seq<Plane>>, values: seq<real>)
    requires |values| >= |lists|
    ensures forall q :: 0 <= q < |Flatten(lists)| ==>
      Flatten(lists)[q] in lists[Owners(lists)[q]] && Repeated(lists, values)[q] == values[Owners(lists)[q]]
  {
    if lists != [] {
      var front := lists[..|lists| - 1];
      FlattenOwners(front, values);
      assert forall m :: 0 <= m < |front| ==> front[m] == lists[m];
    }
  }

  /** Every plane of face m's list appears in the flattened list. */
  lemma {:induction false} FlattenHolds(lists: seq<seq<Plane>>, m: nat, p: Plane)
    requires m < |lists| && p in lists[m]
    ensures p in Flatten(lists)
  {
    if m < |lists| - 1 {
      FlattenHolds(lists[..|lists| - 1], m, p);
    }
  }
}

/**
 * The Wulff construction of a nanoparticle under a gas atmosphere: read the
 * parameters, cap the face coverages, correct the surface energies, cut the
 * particle out of the bulk lattice and classify its surface atoms.
 */
module Msr {
  import opened Common
  import PyText
  import Lattice
  import Coverage
  import Coordination
  import Cluster
  import Params
  import Surface
  import Marking

  /** The parameter map the input panel hands over; the faces as `Face1`, `Face2`, ... in order. */
  datatype ParaMap = ParaMap(element: string, structure: string, lattice: string, pressure: string,
                             temperature: string, radius: string, gases: seq<Params.GasEntry>,
                             nFaces: int, faces: seq<Params.FaceEntry>)

  /** The message `geometry` returns when a corrected surface energy is not positive. */
  const BrokenMessage: string := "Nanoparticle broken \n\nNegative surface energy "

  /** The outcome of each face, in order, as the face loop would meet it. */
  function FaceOutcomes(faces: seq<Params.FaceEntry>, structure: string, a: real, kept: seq<nat>, sqrt: real -> real)
    : (outs: seq<Params.FaceOutcome>)
    ensures |outs| == |faces|
  {
    if faces == [] then []
    else FaceOutcomes(faces[..|faces| - 1], structure, a, kept, sqrt) +
         [Params.FaceRowOf(faces[|faces| - 1], structure, a, kept, sqrt)]
  }

  /** Face m's outcome depends on face m alone. */
  lemma {:induction false} FaceOutcomesAt(faces: seq<Params.FaceEntry>, structure: string, a: real, kept: seq<nat>,
                                          sqrt: real -> real, m: nat)
    requires m < |faces|
    ensures FaceOutcomes(faces, structure, a, kept, sqrt)[m] == Params.FaceRowOf(faces[m], structure, a, kept, sqrt)
  {
    if m < |faces| - 1 {
      FaceOutcomesAt(faces[..|faces| - 1], structure, a, kept, sqrt, m);
    }
  }

  /** The outcomes of the map's faces, with the gases it keeps. */
  function Outcomes(pm: ParaMap, a: real, sqrt: real -> real): (outs: seq<Params.FaceOutcome>)
    requires |pm.gases| >= 3
    ensures |outs| == |pm.faces|
  {
    FaceOutcomes(pm.faces, pm.structure, a, Params.KeptGases(pm.gases, 3), sqrt)
  }

  /** Every face's outcome, as the face loop's precondition wants it. */
  lemma OutcomesAll(pm: ParaMap, a: real, sqrt: real -> real)
    requires |pm.gases| >= 3
    ensures forall j {:trigger Params.FaceRowOf(pm.faces[j], pm.structure, a, Params.KeptGases(pm.gases, 3), sqrt)} ::
      0 <= j < |pm.faces| ==>
        Outcomes(pm, a, sqrt)[j] == Params.FaceRowOf(pm.faces[j], pm.structure, a, Params.KeptGases(pm.gases, 3), sqrt)
  {
    forall j | 0 <= j < |pm.faces|
      ensures Outcomes(pm, a, sqrt)[j] == Params.FaceRowOf(pm.faces[j], pm.structure, a, Params.KeptGases(pm.gases, 3), sqrt)
    {
      FaceOutcomesAt(pm.faces, pm.structure, a, Params.KeptGases(pm.gases, 3), sqrt, j);
    }
  }

  /** Every face before n exists and is accepted. */
  predicate AllAccepted(outs: seq<Params.FaceOutcome>, n: nat)
  {
    n <= |outs| && forall m :: 0 <= m < n ==> outs[m].FaceOk?
  }

  /** The first bad face's effect on `get_para`: a missing face is a KeyError, a bad index is reported. */
  function Stop(outs: seq<Params.FaceOutcome>, m: nat): Outcome<(bool, string)>
  {
    if m >= |outs| then Raised("KeyError")
    else match outs[m]
      case FaceBadIndex => Ok((false, Params.BadFaceMessage(m)))
      case FaceRaised(e) => Raised(e)
      case FaceNonFinite => NonFinite
      case FaceOk(_) => Ok((true, ""))
  }

  /** The accepted faces' rows. */
  function AcceptedRows(outs: seq<Params.FaceOutcome>, n: nat): (rows: seq<Params.FaceRow>)
    requires AllAccepted(outs, n)
    ensures |rows| == n && forall m :: 0 <= m < n ==> outs[m] == Params.FaceOk(rows[m])
  {
    seq(n, m requires 0 <= m < n => outs[m].row)
  }

  /** `face_d` after the given faces: each writes its spacing under its index text, later faces overwriting. */
  function FaceSpacings(index: seq<string>, rows: seq<Params.FaceRow>): map<string, real>
    requires |rows| <= |index|
  {
    if rows == [] then map[]
    else FaceSpacings(index, rows[..|rows| - 1])[index[|rows| - 1] := rows[|rows| - 1].spacing]
  }

  /** Every face's index is a key of `face_d`, holding the spacing of the last face with that index. */
  lemma {:induction false} FaceSpacingsLastWins(index: seq<string>, rows: seq<Params.FaceRow>, m: nat)
    requires m < |rows| <= |index|
    requires forall j :: m < j < |rows| ==> index[j] != index[m]
    ensures index[m] in FaceSpacings(index, rows) && FaceSpacings(index, rows)[index[m]] == rows[m].spacing
  {
    if |rows| - 1 > m {
      FaceSpacingsLastWins(index, rows[..|rows| - 1], m);
    }
  }

  /** The keys of `face_d` are exactly the index texts of the faces read. */
  lemma {:induction false} FaceSpacingsKeys(index: seq<string>, rows: seq<Params.FaceRow>, face: string)
    requires |rows| <= |index|
    ensures face in FaceSpacings(index, rows) <==> exists m :: 0 <= m < |rows| && index[m] == face
  {
    if rows != [] {
      FaceSpacingsKeys(index, rows[..|rows| - 1], face);
    }
  }

  /** The per-face tables the face loop fills, apart from the counts. */
  datatype FaceTables = FaceTables(faceIndex: seq<string>, aAtoms: seq<real>, gamma: seq<real>,
                                   eAds: seq<seq<real>>, sAds: seq<seq<real>>, w: seq<seq<seq<real>>>,
                                   faceD: map<string, real>)

  /** Face m read and accepted: its index text, area and surface energy appended, its rows and spacing stored. */
  function StoreRow(t: FaceTables, m: nat, face: string, row: Params.FaceRow): (r: FaceTables)
    requires m < |t.eAds| && m < |t.sAds| && m < |t.w|
    ensures |r.eAds| == |t.eAds| && |r.sAds| == |t.sAds| && |r.w| == |t.w|
  {
    FaceTables(t.faceIndex + [face], t.aAtoms + [row.area], t.gamma + [row.gamma],
               t.eAds[m := row.eAds], t.sAds[m := row.sAds], t.w[m := row.w], t.faceD[face := row.spacing])
  }

  /** The tables after the first m faces, all accepted, starting from t0. */
  function Stored(t0: FaceTables, faces: seq<Params.FaceEntry>, outs: seq<Params.FaceOutcome>, m: nat): (r: FaceTables)
    requires AllAccepted(outs, m) && m <= |faces| && m <= |t0.eAds| && m <= |t0.sAds| && m <= |t0.w|
    ensures |r.eAds| == |t0.eAds| && |r.sAds| == |t0.sAds| && |r.w| == |t0.w|
  {
    if m == 0 then t0
    else StoreRow(Stored(t0, faces, outs, m - 1), m - 1, faces[m - 1].index, outs[m - 1].row)
  }

  /** The index texts are appended in face order. */
  lemma {:induction false} StoredIndex(t0: FaceTables, faces: seq<Params.FaceEntry>, outs: seq<Params.FaceOutcome>, m: nat)
    requires AllAccepted(outs, m) && m <= |faces| && m <= |t0.eAds| && m <= |t0.sAds| && m <= |t0.w|
    ensures Stored(t0, faces, outs, m).faceIndex == t0.faceIndex + seq(m, j requires 0 <= j < m => faces[j].index)
  {
    if m > 0 {
      StoredIndex(t0, faces, outs, m - 1);
      assert seq(m, j requires 0 <= j < m => faces[j].index) ==
             seq(m - 1, j requires 0 <= j < m - 1 => faces[j].index) + [faces[m - 1].index];
    }
  }

  /** Area and surface energy of accepted face j are appended at position j, after what was there. */
  lemma {:induction false} StoredLists(t0: FaceTables, faces: seq<Params.FaceEntry>, outs: seq<Params.FaceOutcome>, m: nat)
    requires AllAccepted(outs, m) && m <= |faces| && m <= |t0.eAds| && m <= |t0.sAds| && m <= |t0.w|
    ensures var t := Stored(t0, faces, outs, m);
      |t.aAtoms| == |t0.aAtoms| + m && t.aAtoms[..|t0.aAtoms|] == t0.aAtoms &&
      |t.gamma| == |t0.gamma| + m && t.gamma[..|t0.gamma|] == t0.gamma &&
      forall j :: 0 <= j < m ==>
        t.aAtoms[|t0.aAtoms| + j] == outs[j].row.area && t.gamma[|t0.gamma| + j] == outs[j].row.gamma
  {
    if m > 0 {
      StoredLists(t0, faces, outs, m - 1);
    }
  }

  /** Accepted face j's rows replace row j of the zero tables; later rows are untouched. */
  lemma {:induction false} StoredRows(t0: FaceTables, faces: seq<Params.FaceEntry>, outs: seq<Params.FaceOutcome>, m: nat)
    requires AllAccepted(outs, m) && m <= |faces| && m <= |t0.eAds| && m <= |t0.sAds| && m <= |t0.w|
    ensures var t := Stored(t0, faces, outs, m);
      (forall j :: 0 <= j < m ==> t.eAds[j] == outs[j].row.eAds && t.sAds[j] == outs[j].row.sAds && t.w[j] == outs[j].row.w) &&
      (forall j :: m <= j < |t0.eAds| ==> t.eAds[j] == t0.eAds[j]) &&
      (forall j :: m <= j < |t0.sAds| ==> t.sAds[j] == t0.sAds[j]) &&
      (forall j :: m <= j < |t0.w| ==> t.w[j] == t0.w[j])
  {
    if m > 0 {
      StoredRows(t0, faces, outs, m - 1);
    }
  }

  /** Starting from an empty dictionary, `face_d` maps each face's index text to the last such face's spacing. */
  lemma {:induction false} StoredSpacings(t0: FaceTables, faces: seq<Params.FaceEntry>, outs: seq<Params.FaceOutcome>, m: nat)
    requires AllAccepted(outs, m) && m <= |faces| && m <= |t0.eAds| && m <= |t0.sAds| && m <= |t0.w|
    requires t0.faceD == map[]
    ensures Stored(t0, faces, outs, m).faceD ==
            FaceSpacings(seq(m, j requires 0 <= j < m => faces[j].index), AcceptedRows(outs, m))
  {
    if m > 0 {
      StoredSpacings(t0, faces, outs, m - 1);
      var index := seq(m, j requires 0 <= j < m => faces[j].index);
      var front := seq(m - 1, j requires 0 <= j < m - 1 => faces[j].index);
      var rows := AcceptedRows(outs, m);
      assert rows[..m - 1] == AcceptedRows(outs, m - 1);
      FaceSpacingsPrefix(front, index, rows[..m - 1]);
    }
  }

  /** `face_d` only reads the index texts of the faces it has rows for. */
  lemma {:induction false} FaceSpacingsPrefix(index: seq<string>, longer: seq<string>, rows: seq<Params.FaceRow>)
    requires |rows| <= |index| <= |longer| && index == longer[..|index|]
    ensures FaceSpacings(index, rows) == FaceSpacings(longer, rows)
  {
    if rows != [] {
      FaceSpacingsPrefix(index, longer, rows[..|rows| - 1]);
    }
  }

  /**
   * Tables of n faces by g kept gases: one index text, area and surface
   * energy per face, every area non-zero, every index a key of `face_d`.
   */
  predicate TablesLoaded(t: FaceTables, n: nat, g: nat)
  {
    |t.faceIndex| == n && |t.gamma| == n && |t.aAtoms| == n &&
    |t.eAds| == n && |t.sAds| == n && |t.w| == n &&
    forall m :: 0 <= m < n ==>
      |t.eAds[m]| == g && |t.sAds[m]| == g && Coverage.Square(t.w[m], g) &&
      t.aAtoms[m] != 0.0 && t.faceIndex[m] in t.faceD
  }

  /** Faces read into empty lists and zero tables, all accepted, leave tables fit for the later steps. */
  lemma StoredLoaded(pm: ParaMap, a: real, sqrt: real -> real, n: nat)
    requires |pm.gases| >= 3 && AllAccepted(Outcomes(pm, a, sqrt), n)
    ensures var g := |Params.KeptGases(pm.gases, 3)|;
      TablesLoaded(Stored(ZeroTables([], [], [], n, g), pm.faces, Outcomes(pm, a, sqrt), n), n, g)
  {
    var outs := Outcomes(pm, a, sqrt);
    var kept := Params.KeptGases(pm.gases, 3);
    var t0 := ZeroTables([], [], [], n, |kept|);
    var t := Stored(t0, pm.faces, outs, n);
    StoredIndex(t0, pm.faces, outs, n);
    StoredLists(t0, pm.faces, outs, n);
    StoredRows(t0, pm.faces, outs, n);
    StoredSpacings(t0, pm.faces, outs, n);
    var index := seq(n, j requires 0 <= j < n => pm.faces[j].index);
    var rows := AcceptedRows(outs, n);
    forall m | 0 <= m < n
      ensures |t.eAds[m]| == |kept| && |t.sAds[m]| == |kept| && Coverage.Square(t.w[m], |kept|) &&
              t.aAtoms[m] != 0.0 && t.faceIndex[m] in t.faceD
    {
      FaceOutcomesAt(pm.faces, pm.structure, a, kept, sqrt, m);
      FaceSpacingsKeys(index, rows, index[m]);
    }
  }

  /** A zero row of length n. */
  function Zeros(n: nat): (r: seq<real>)
    ensures |r| == n && forall i :: 0 <= i < n ==> r[i] == 0.0
  {
    seq(n, _ => 0.0)
  }

  /** `np.ones(n)`: the monolayer coverage of every face. */
  function Ones(n: nat): (r: seq<real>)
    ensures |r| == n && forall i :: 0 <= i < n ==> r[i] == 1.0
  {
    seq(n, _ => 1.0)
  }

  /**
   * The tables as the face loop starts: index texts, areas and surface
   * energies as they were, `np.zeros` tables of n faces by g kept gases,
   * and an empty `face_d`.
   */
  function ZeroTables(index: seq<string>, areas: seq<real>, gammas: seq<real>, n: nat, g: nat): (t: FaceTables)
    ensures t.faceIndex == index && t.aAtoms == areas && t.gamma == gammas && t.faceD == map[]
    ensures |t.eAds| == |t.sAds| == |t.w| == n
    ensures forall m :: 0 <= m < n ==> t.eAds[m] == Zeros(g) && t.sAds[m] == Zeros(g)
    ensures forall m :: 0 <= m < n ==> |t.w[m]| == g && forall k :: 0 <= k < g ==> t.w[m][k] == Zeros(g)
  {
    FaceTables(index, areas, gammas, seq(n, _ => Zeros(g)), seq(n, _ => Zeros(g)), seq(n, _ => seq(g, _ => Zeros(g))), map[])
  }

  // ------------------------------------------------------------ geometry

  /** `np.min` of a non-empty list. */
  function MinOf(s: seq<real>): (r: real)
    requires |s| > 0
    ensures r in s
  {
    if |s| == 1 then s[0]
    else
      var rest := MinOf(s[..|s| - 1]);
      if s[|s| - 1] < rest then s[|s| - 1] else rest
  }

  /** The minimum is one of the values and no value is below it. */
  lemma {:induction false} MinOfIsMinimum(s: seq<real>)
    requires |s| > 0
    ensures (exists q :: 0 <= q < |s| && s[q] == MinOf(s)) && forall q :: 0 <= q < |s| ==> MinOf(s) <= s[q]
  {
    if |s| > 1 {
      var init := s[..|s| - 1];
      MinOfIsMinimum(init);
      var q :| 0 <= q < |init| && init[q] == MinOf(init);
      var last := |s| - 1;
      if s[last] < MinOf(init) {
        assert MinOf(s) == s[last];
      } else {
        assert MinOf(s) == init[q] == s[q];
      }
      forall j | 0 <= j < |s|
        ensures MinOf(s) <= s[j]
      {
        if j < last {
          assert s[j] == init[j];
        }
      }
    } else {
      assert s[0] == MinOf(s);
    }
  }

  /** One plane's length: its energy over the lowest, times the radius. */
  function Scale(e: real, d: real, e0: real): real
    requires e0 != 0.0
  {
    e * d / e0
  }

  /** The Wulff lengths: each plane's energy scaled so that the lowest-energy plane sits at the radius d. */
  function Lengths(energies: seq<real>, d: real): (r: seq<real>)
    requires |energies| > 0 && MinOf(energies) != 0.0
    ensures |r| == |energies|
  {
    var e0 := MinOf(energies);
    seq(|energies|, q requires 0 <= q < |energies| => Scale(energies[q], d, e0))
  }

  /**
   * With positive energies and a non-negative radius, the lowest-energy
   * planes get exactly the radius, every other plane at least the radius, and
   * a plane of higher energy never a shorter length.
   */
  lemma LengthsMeaning(energies: seq<real>, d: real)
    requires |energies| > 0 && forall q :: 0 <= q < |energies| ==> energies[q] > 0.0
    requires d >= 0.0
    ensures var len := Lengths(energies, d);
      (forall q :: 0 <= q < |energies| ==> len[q] >= d) &&
      (forall q :: 0 <= q < |energies| && energies[q] == MinOf(energies) ==> len[q] == d) &&
      (forall q, q' :: 0 <= q < |energies| && 0 <= q' < |energies| && energies[q] <= energies[q'] ==> len[q] <= len[q'])
  {
    var e0 := MinOf(energies);
    MinOfIsMinimum(energies);
    forall q | 0 <= q < |energies|
      ensures Scale(energies[q], d, e0) >= d
    {
      ScaleAtLeast(energies[q], d, e0);
    }
    forall q, q' | 0 <= q < |energies| && 0 <= q' < |energies| && energies[q] <= energies[q']
      ensures Scale(energies[q], d, e0) <= Scale(energies[q'], d, e0)
    {
      ScaleMonotone(energies[q], energies[q'], d, e0);
    }
    forall q | 0 <= q < |energies| && energies[q] == e0
      ensures Scale(energies[q], d, e0) == d
    {
      ScaleOwn(e0, d);
    }
  }

  lemma ScaleAtLeast(e: real, d: real, e0: real)
    requires 0.0 < e0 <= e && d >= 0.0
    ensures Scale(e, d, e0) >= d
  {
    assert e * d / e0 == d * (e / e0);
    assert e / e0 >= 1.0;
  }

  lemma ScaleOwn(e0: real, d: real)
    requires e0 != 0.0
    ensures Scale(e0, d, e0) == d
  {
    assert e0 * d == d * e0;
  }

  lemma ScaleMonotone(e: real, e': real, d: real, e0: real)
    requires e0 > 0.0 && e <= e' && d >= 0.0
    ensures Scale(e, d, e0) <= Scale(e', d, e0)
  {
    assert e * d <= e' * d;
  }

  /** `[x for i in range(n)]`. */
  function Copies(x: string, n: nat): (r: seq<string>)
    ensures |r| == n && forall i :: 0 <= i < n ==> r[i] == x
  {
    seq(n, _ => x)
  }

  /** The lattice cell of the structure: four atoms for FCC, two for BCC. */
  function Basis(structure: string, a: real): seq<Point>
  {
    if structure == "FCC" then Lattice.FccBasis(a) else Lattice.BccBasis(a)
  }

  /** `distance[valid_atoms, :]`: the projection rows of the kept atoms. */
  function KeptRows(distance: seq<seq<real>>, valid: seq<nat>): (r: seq<seq<real>>)
    requires forall k :: 0 <= k < |valid| ==> valid[k] < |distance|
    ensures |r| == |valid|
  {
    seq(|valid|, k requires 0 <= k < |valid| => distance[valid[k]])
  }

  /**
   * Positive corrected energies give a non-empty energy list of positive
   * minimum whose planes all have a face with a spacing.
   */
  lemma EnergiesReady(gamma: seq<real>, lists: seq<seq<Plane>>, faceIndex: seq<string>, structure: string,
                      faceD: map<string, real>)
    requires |gamma| == |lists| == |faceIndex| && forall m :: 0 <= m < |gamma| ==> gamma[m] > 0.0
    requires |Surface.Repeated(lists, gamma)| > 0
    requires forall m :: 0 <= m < |lists| ==>
      Lattice.Elements(lists[m]) == Surface.FamilyOf(faceIndex[m], structure) && faceIndex[m] in faceD
    ensures var energies := Surface.Repeated(lists, gamma);
      var planes := Surface.Flatten(lists);
      |energies| == |planes| > 0 && MinOf(energies) > 0.0 && |lists| > 0 &&
      Marking.Keyed(Marking.Frame(structure, planes, Surface.PlanesDict(faceIndex, structure, |faceIndex|), faceD, faceIndex))
  {
    var energies := Surface.Repeated(lists, gamma);
    assert lists != [];
    Surface.FlattenOwners(lists, gamma);
    MinOfIsMinimum(energies);
    var q :| 0 <= q < |energies| && energies[q] == MinOf(energies);
    assert energies[q] == gamma[Surface.Owners(lists)[q]];
    FrameKeyed(faceIndex, structure, faceD, lists, Surface.Flatten(lists));
  }

  /**
   * The classifier's dictionaries are complete for the planes listed: each
   * plane's family has a face, and that face a spacing.
   */
  lemma FrameKeyed(faceIndex: seq<string>, structure: string, faceD: map<string, real>,
                   lists: seq<seq<Plane>>, planes: seq<Plane>)
    requires |lists| == |faceIndex| && planes == Surface.Flatten(lists)
    requires forall m :: 0 <= m < |lists| ==> Lattice.Elements(lists[m]) == Surface.FamilyOf(faceIndex[m], structure)
    requires forall m :: 0 <= m < |faceIndex| ==> faceIndex[m] in faceD
    ensures Marking.Keyed(Marking.Frame(structure, planes, Surface.PlanesDict(faceIndex, structure, |faceIndex|),
                                        faceD, faceIndex))
  {
    var n := |faceIndex|;
    var dict := Surface.PlanesDict(faceIndex, structure, n);
    Surface.FlattenOwners(lists, seq(n, _ => 0.0));
    forall j | 0 <= j < |planes|
      ensures planes[j] in dict && dict[planes[j]] in faceD
    {
      var o := Surface.Owners(lists)[j];
      assert planes[j] in Lattice.Elements(lists[o]);
      Surface.PlanesDictKeys(faceIndex, structure, n, planes[j]);
      Surface.PlanesDictValues(faceIndex, structure, n, planes[j]);
    }
  }

  /** The atoms the classifier examines are the surface atoms `surf_count` counts. */
  lemma {:induction false} CandidatesAreSurface(structure: string, cn: seq<int>, n: nat)
    requires structure == "FCC" || structure == "BCC"
    requires n <= |cn|
    ensures Marking.Candidates(structure, cn, n) == Coordination.CountBelow(cn[..n], Coordination.SurfaceLimit(structure))
  {
    if n > 0 {
      CandidatesAreSurface(structure, cn, n - 1);
      assert cn[..n][..n - 1] == cn[..n - 1];
    }
  }

  /** `sum(revised_gamma > 0)` over the first n faces. */
  function Positives(s: seq<real>, n: nat): (r: nat)
    requires n <= |s|
    ensures r <= n
  {
    if n == 0 then 0 else Positives(s, n - 1) + (if s[n - 1] > 0.0 then 1 else 0)
  }

  /** The count reaches n exactly when every one of the first n values is positive. */
  lemma {:induction false} PositivesAll(s: seq<real>, n: nat)
    requires n <= |s|
    ensures Positives(s, n) == n <==> forall m :: 0 <= m < n ==> s[m] > 0.0
  {
    if n > 0 {
      PositivesAll(s, n - 1);
    }
  }

  /** What `geometry` records about the particle it cut. */
  datatype Particle = Particle(positions: seq<Point>, eles: seq<string>, nAtoms: int, siteTypes: seq<string>,
                               nSurfs: seq<int>, nedges: int, ncorners: int, subsurface: int)

  /**
   * The cut: the coordinates of the atoms kept by `gen_cluster`, in bulk
   * order, and their rows of the projection matrix (`distance[valid_atoms, :]`).
   */
  function Cut(bulk: seq<Point>, planes: seq<Plane>, length: seq<real>, sqrt: real -> real)
    : (r: (seq<Point>, seq<seq<real>>))
    requires Cluster.NonZeroNorms(planes, sqrt) && |length| == |planes|
    ensures |r.0| == |r.1| && Marking.Rows(r.1, |planes|)
  {
    var (distance, valid) := Cluster.GenCluster(bulk, planes, length, sqrt);
    (Cluster.GenClusterCoordinates(bulk, planes, length, sqrt), KeptRows(distance, valid))
  }

  /**
   * How the cut and its analysis end: non-finite projections for a zero
   * plane normal, the exception `surf_count` raises on the kept atoms with
   * bond threshold t, and success otherwise.
   */
  datatype Stage = BrokenEnergies | NoPlanes | Proceed

  function StageOf(revisedGamma: seq<real>, energies: seq<real>): Stage
  {
    if exists m :: 0 <= m < |revisedGamma| && revisedGamma[m] <= 0.0 then BrokenEnergies
    else if |energies| == 0 then NoPlanes
    else Proceed
  }

  /** The fields of a Wulff object that the shape of the particle depends on. */
  datatype Setting = Setting(revisedGamma: seq<real>, d: real, lattA: real, structure: string, bondLength: real,
                             ele: string, planesDict: map<Plane, string>, faceD: map<string, real>,
                             faceIndex: seq<string>)

  /**
   * What `geometry` ends with once the surface energies are known: a
   * non-positive corrected energy reports a broken particle, an empty energy
   * array raises (the minimum of nothing), and otherwise the particle is
   * `Built`. Only a built particle is recorded.
   */
  predicate Shaped(s: Setting, planes: seq<Plane>, energies: seq<real>, sqrt: real -> real,
                   r: Outcome<(int, string)>, length: seq<real>, dim: real, bulk: seq<Point>,
                   particle: Option<Particle>)
  {
    match StageOf(s.revisedGamma, energies)
    case BrokenEnergies => r == Ok((0, BrokenMessage)) && particle == None
    case NoPlanes => r == Raised("ValueError") && particle == None
    case Proceed => Built(s, planes, energies, sqrt, r, length, dim, bulk, particle)
  }

  /**
   * The Wulff lengths of the energies, a bulk cube of side three times the
   * shortest length, then the cut and, when it succeeds, the classified
   * particle.
   */
  predicate Built(s: Setting, planes: seq<Plane>, energies: seq<real>, sqrt: real -> real,
                  r: Outcome<(int, string)>, length: seq<real>, dim: real, bulk: seq<Point>,
                  particle: Option<Particle>)
  {
    var f := Marking.Frame(s.structure, planes, s.planesDict, s.faceD, s.faceIndex);
    |energies| == |planes| > 0 && MinOf(energies) > 0.0 &&
    s.lattA != 0.0 && (s.structure == "FCC" || s.structure == "BCC") &&
    length == Lengths(energies, s.d) && dim == MinOf(length) * 3.0 &&
    bulk == Lattice.Centred(Lattice.Tiled(Lattice.Reps(dim, s.lattA), s.lattA, Basis(s.structure, s.lattA))) &&
    r == CutOutcome(bulk, planes, length, sqrt, s.bondLength) &&
    (r.Ok? ==> Marking.Keyed(f) && particle == Some(ParticleOf(bulk, planes, length, sqrt, s.bondLength, s.ele, f))) &&
    (!r.Ok? ==> particle == None)
  }

  function CutOutcome(bulk: seq<Point>, planes: seq<Plane>, length: seq<real>, sqrt: real -> real, t: real)
    : Outcome<(int, string)>
    requires |length| == |planes|
  {
    if !Cluster.NonZeroNorms(planes, sqrt) then NonFinite
    else
      match Coordination.SurfFailure(Cut(bulk, planes, length, sqrt).0, t, sqrt)
      case Some(e) => Raised(e)
      case None => Ok((1, ""))
  }

  /** The particle recorded from kept atoms, their coordination numbers and their marks. */
  function Recording(coords: seq<Point>, cn: seq<int>, mk: Marking.Marks, ele: string, structure: string): Particle
  {
    Particle(coords, Copies(ele, |coords|), |coords|, mk.labels, mk.nSurfs, mk.nedges, mk.ncorners,
             Subsurface(cn, mk, structure))
  }

  /**
   * The particle recorded from a successful cut: the kept atoms, each of
   * element `ele`, their classification from their coordination numbers and
   * projection rows, and the face summary's `number` row.
   */
  function ParticleOf(bulk: seq<Point>, planes: seq<Plane>, length: seq<real>, sqrt: real -> real, t: real,
                      ele: string, f: Marking.Frame): Particle
    requires |length| == |planes| && f.planes == planes && Marking.Keyed(f)
    requires CutOutcome(bulk, planes, length, sqrt, t).Ok?
  {
    var (coords, rows) := Cut(bulk, planes, length, sqrt);
    var cn := Coordination.CoordNumbers(Coordination.NearMatrix(coords, t, sqrt));
    Recording(coords, cn, Marking.Classified(cn, rows, f), ele, f.structure)
  }

  /** The summary's subsurface figure: surface atoms less those on faces, edges and corners. */
  function Subsurface(cn: seq<int>, mk: Marking.Marks, structure: string): int
  {
    Coordination.CountBelow(cn, Coordination.SurfaceLimit(structure)) - SumInt(mk.nSurfs) - mk.nedges - mk.ncorners
  }

  /** When every face is a distinct word, the subsurface figure is the number of atoms labelled subsurface. */
  lemma SubsurfaceMeaning(cn: seq<int>, rows: seq<seq<real>>, f: Marking.Frame)
    requires f.structure == "FCC" || f.structure == "BCC"
    requires Marking.WellFaced(f) && |cn| == |rows| > 0 && Marking.Rows(rows, |f.planes|)
    ensures var mk := Marking.Classified(cn, rows, f);
      Subsurface(cn, mk, f.structure) == Marking.CountSub(mk.labels)
  {
    CandidatesAreSurface(f.structure, cn, |cn|);
    assert cn[..|cn|] == cn;
    Marking.SubsurfaceCount(cn, rows, f);
  }

  /** The bulk crystal for the structure: `gen_fcc` or `gen_bcc` on a cube of side `dim`, centred. */
  method BuildBulk(structure: string, a: real, dim: real) returns (bulk: seq<Point>)
    requires a != 0.0 && (structure == "FCC" || structure == "BCC")
    ensures bulk == Lattice.Centred(Lattice.Tiled(Lattice.Reps(dim, a), a, Basis(structure, a)))
  {
    var cells;
    if structure == "FCC" {
      cells := Lattice.GenFcc(dim, a);
    } else {
      cells := Lattice.GenBcc(dim, a);
    }
    bulk := cells[..];
  }

  /** The outcome of a step that only reports success or the exception it raised. */
  function Done<T>(o: Outcome<T>): (r: Outcome<()>)
    ensures r.Ok? <==> o.Ok?
    ensures o.Raised? ==> r == Raised(o.error)
    ensures o.NonFinite? ==> r == NonFinite
  {
    match o
    case Ok(_) => Ok(())
    case Raised(e) => Raised(e)
    case NonFinite => NonFinite
  }

  class Wulff {
    var ele: string
    var structure: string
    var lattA: real
    var lattC: real
    var aAtoms: seq<real>
    var p: real
    var t: real
    var d: real

    var nGas: int
    var rPP: seq<real>
    var sGas: seq<real>
    var adsType: seq<string>
    var thetaML: seq<real>

    var faceNum: int
    var faceIndex: seq<string>
    var gamma: seq<real>
    var eAds: seq<seq<real>>
    var sAds: seq<seq<real>>
    var w: seq<seq<seq<real>>>

    var coverage: seq<seq<real>>
    var revisedGamma: seq<real>
    var bondLength: real
    var faceD: map<string, real>
    var planesDict: map<Plane, string>

    /**
     * The particle `geometry` keeps: `positions`, `eles`, `nAtoms` and
     * `siteTypes`, with the `number` row of `record_df` (facet counters,
     * edges, corners, subsurface), held together in one field.
     */
    var cluster: Particle

    /** Nothing has been appended to the growing arrays yet. */
    predicate Fresh()
      reads this`aAtoms, this`rPP, this`sGas, this`adsType, this`faceIndex, this`gamma
    {
      aAtoms == [] && rPP == [] && sGas == [] && adsType == [] && faceIndex == [] && gamma == []
    }

    /** What a successful `get_para` leaves for the later steps to read. */
    predicate Loaded()
      reads this`faceNum, this`nGas, this`rPP, this`sGas, this`adsType, this`thetaML, this`lattA, this`structure
      reads this`faceIndex, this`aAtoms, this`gamma, this`eAds, this`sAds, this`w, this`faceD
    {
      faceNum >= 0 && nGas >= 0 &&
      |rPP| == nGas && |sGas| == nGas && |adsType| == nGas &&
      |thetaML| == faceNum && (forall m :: 0 <= m < faceNum ==> thetaML[m] == 1.0) &&
      TablesLoaded(Tables(), faceNum, nGas) &&
      (faceNum > 0 ==> lattA != 0.0 && (structure == "FCC" || structure == "BCC"))
    }

    /** The per-face tables as they stand. */
    function Tables(): FaceTables
      reads this`faceIndex, this`aAtoms, this`gamma, this`eAds, this`sAds, this`w, this`faceD
    {
      FaceTables(faceIndex, aAtoms, gamma, eAds, sAds, w, faceD)
    }

    /** `Wulff()`: empty parameters, three gases, bond length 3. */
    constructor ()
      ensures Fresh()
      ensures ele == "" && structure == "" && lattA == 0.0 && lattC == 0.0 && p == 0.0 && t == 0.0 && d == 0.0
      ensures nGas == 3 && thetaML == [] && faceNum == 0 && eAds == [] && sAds == [] && w == []
      ensures coverage == [] && revisedGamma == [] && bondLength == 3.0
      ensures cluster == Particle([], [], 0, [], [], 0, 0, 0)
    {
      ele, structure := "", "";
      lattA, lattC, p, t, d := 0.0, 0.0, 0.0, 0.0, 0.0;
      aAtoms := [];
      nGas := 3;
      rPP, sGas, adsType, thetaML := [], [], [], [];
      faceNum := 0;
      faceIndex, gamma, eAds, sAds, w := [], [], [], [], [];
      coverage, revisedGamma := [], [];
      bondLength := 3.0;
      faceD, planesDict := map[], map[];
      cluster := Particle([], [], 0, [], [], 0, 0, 0);
    }

    /**
     * The `try` block: lattice constant, pressure and temperature are read in
     * turn, and a ValueError skips the rest of the block silently.
     */
    method ReadHeader(pm: ParaMap)
      modifies this`ele, this`structure, this`lattA, this`p, this`t
      ensures ele == pm.element && structure == pm.structure
      ensures var a := PyText.ParseReal(pm.lattice);
        lattA == (if a.Some? then a.value else old(lattA))
      ensures var a, pr := PyText.ParseReal(pm.lattice), PyText.ParseReal(pm.pressure);
        p == (if a.Some? && pr.Some? then pr.value else old(p))
      ensures var a, pr, te := PyText.ParseReal(pm.lattice), PyText.ParseReal(pm.pressure), PyText.ParseReal(pm.temperature);
        t == (if a.Some? && pr.Some? && te.Some? then te.value else old(t))
    {
      ele := pm.element;
      structure := pm.structure;
      var a := PyText.ParseReal(pm.lattice);
      if a.None? {
        return;
      }
      lattA := a.value;
      var pr := PyText.ParseReal(pm.pressure);
      if pr.None? {
        return;
      }
      p := pr.value;
      var te := PyText.ParseReal(pm.temperature);
      if te.None? {
        return;
      }
      t := te.value;
    }

    /** The gas arrays as they stand. */
    function Gases(): Params.GasTable
      reads this`rPP, this`sGas, this`adsType
    {
      Params.GasTable(rPP, sGas, adsType)
    }

    /**
     * One pass of the gas loop on gas g, after the gases that gathered tb
     * onto the arrays `start`: an empty pressure text decrements `nGas`, a
     * kept gas's row is appended, and a failing row is the outcome.
     */
    method ReadGas(g: Params.GasEntry, ln: real -> real, ghost start: Params.GasTable, ghost tb: Params.GasTable)
      returns (r: Outcome<()>)
      requires Gases() == Params.Joined(start, tb)
      modifies this`nGas, this`rPP, this`sGas, this`adsType
      ensures var s := Params.GatherStep(tb, g, Params.GasRowOf(g, p, ln));
        r == Done(s) && (s.Ok? ==> Gases() == Params.Joined(start, s.value))
      ensures nGas == old(nGas) - (if g.pp == "" then 1 else 0)
    {
      r := Ok(());
      if g.pp == "" {
        nGas := nGas - 1;
      } else {
        var row := Params.GasRowOf(g, p, ln);
        if row.Ok? {
          rPP, sGas, adsType := rPP + [row.value.rPP], sGas + [row.value.sGas], adsType + [row.value.adsType];
          assert rPP == start.rPP + (tb.rPP + [row.value.rPP]);
          assert sGas == start.sGas + (tb.sGas + [row.value.sGas]);
          assert adsType == start.adsType + (tb.adsType + [row.value.adsType]);
        } else {
          r := if row.NonFinite? then NonFinite else Raised(row.error);
        }
      }
    }

    /**
     * The gas loop: a gas with empty partial-pressure text is dropped and
     * `nGas` decremented; a kept gas appends its relative pressure, entropy
     * and type. The loop stops at the first kept gas whose row fails, and the
     * outcome is that of gathering the three gases.
     */
    method ReadGases(gases: seq<Params.GasEntry>, ln: real -> real) returns (r: Outcome<()>)
      requires |gases| >= 3
      modifies this`nGas, this`rPP, this`sGas, this`adsType
      ensures var g := Params.GasesUpTo(gases, p, ln, 3);
        (r.Ok? <==> g.Ok?) && (r.NonFinite? <==> g.NonFinite?) && (g.Raised? ==> r == Raised(g.error))
      ensures var g := Params.GasesUpTo(gases, p, ln, 3);
        g.Ok? ==> rPP == old(rPP) + g.value.rPP && sGas == old(sGas) + g.value.sGas &&
                  adsType == old(adsType) + g.value.adsType && nGas == |Params.KeptGases(gases, 3)|
    {
      ghost var rows := Params.RowsOf(gases, p, ln);
      nGas := 3;
      r := Ok(());
      var i := 0;
      while i < 3 && r.Ok?
        invariant i <= 3 && r == Done(Params.GatherUpTo(gases, rows, i))
        invariant r.Ok? ==> Gases() == Params.Joined(old(Gases()), Params.GatherUpTo(gases, rows, i).value)
        invariant r.Ok? ==> nGas == 3 - i + |Params.KeptGases(gases, i)|
      {
        Params.GatherNext(gases, rows, i);
        assert rows[i] == Params.GasRowOf(gases[i], p, ln);
        r := ReadGas(gases[i], ln, old(Gases()), Params.GatherUpTo(gases, rows, i).value);
        i := i + 1;
      }
      if !r.Ok? {
        Params.GatherStaysFailed(gases, rows, i, 3);
      }
    }

    /**
     * The area, spacing and kept-gas rows of face m, computed from the
     * structure and lattice constant read so far.
     */
    method EvalFace(pm: ParaMap, m: nat, kept: seq<nat>, sqrt: real -> real, ghost outs: seq<Params.FaceOutcome>)
      returns (outcome: Params.FaceOutcome)
      requires |pm.gases| >= 3 && m < |pm.faces| && kept == Params.KeptGases(pm.gases, 3) && structure == pm.structure
      requires |outs| == |pm.faces|
      requires forall j {:trigger Params.FaceRowOf(pm.faces[j], pm.structure, lattA, kept, sqrt)} ::
        0 <= j < |outs| ==> outs[j] == Params.FaceRowOf(pm.faces[j], pm.structure, lattA, kept, sqrt)
      ensures outcome == outs[m]
      ensures outcome.FaceOk? ==> Params.ReachesBond(pm.faces[m]) && (structure == "FCC" || structure == "BCC")
      ensures outcome.FaceOk? ==> outcome.row.area != 0.0 && lattA != 0.0
      ensures outcome.FaceOk? ==> |outcome.row.eAds| == |outcome.row.sAds| == |outcome.row.w| == |kept|
      ensures outcome.FaceOk? ==> Coverage.Square(outcome.row.w, |kept|)
    {
      outcome := Params.FaceRowOf(pm.faces[m], structure, lattA, kept, sqrt);
    }

    /** An accepted face stored: its spacing under its index text, its area, surface energy and rows. */
    method StoreFace(m: nat, face: string, row: Params.FaceRow)
      requires m < |eAds| && m < |sAds| && m < |w|
      modifies this`aAtoms, this`gamma, this`faceD, this`eAds, this`sAds, this`w
      ensures faceD == old(faceD)[face := row.spacing]
      ensures aAtoms == old(aAtoms) + [row.area] && gamma == old(gamma) + [row.gamma]
      ensures eAds == old(eAds)[m := row.eAds] && sAds == old(sAds)[m := row.sAds] && w == old(w)[m := row.w]
    {
      faceD := faceD[face := row.spacing];
      aAtoms := aAtoms + [row.area];
      gamma := gamma + [row.gamma];
      eAds := eAds[m := row.eAds];
      sAds := sAds[m := row.sAds];
      w := w[m := row.w];
    }

    /**
     * One pass of the face loop: the index text is appended, the bond
     * length set once the index has three tokens and the structure is
     * known, and an accepted face stored.
     */
    method ReadFace(pm: ParaMap, m: nat, kept: seq<nat>, sqrt: real -> real, ghost outs: seq<Params.FaceOutcome>)
      returns (outcome: Params.FaceOutcome)
      requires |pm.gases| >= 3 && m < |pm.faces| && kept == Params.KeptGases(pm.gases, 3) && structure == pm.structure
      requires m < |eAds| && m < |sAds| && m < |w|
      requires |outs| == |pm.faces|
      requires forall j {:trigger Params.FaceRowOf(pm.faces[j], pm.structure, lattA, kept, sqrt)} ::
        0 <= j < |outs| ==> outs[j] == Params.FaceRowOf(pm.faces[j], pm.structure, lattA, kept, sqrt)
      modifies this`faceIndex, this`bondLength, this`aAtoms, this`gamma, this`faceD, this`eAds, this`sAds, this`w
      ensures outcome == outs[m]
      ensures outcome.FaceOk? ==>
        Tables() == StoreRow(old(Tables()), m, pm.faces[m].index, outcome.row) &&
        lattA != 0.0 && (structure == "FCC" || structure == "BCC") &&
        bondLength == Params.BondLength(structure, lattA)
    {
      var face := pm.faces[m];
      faceIndex := faceIndex + [face.index];
      if Params.ReachesBond(face) {
        var b := Params.BondLengthOf(structure, lattA);
        if b.Some? {
          bondLength := b.value;
        }
      }
      outcome := EvalFace(pm, m, kept, sqrt, outs);
      if outcome.FaceOk? {
        StoreFace(m, face.index, outcome.row);
      }
    }

    /**
     * The loop over faces 0 .. n-1 once the zero tables are in place: the
     * first face that is missing or not accepted ends it with its outcome.
     */
    method FaceLoop(pm: ParaMap, n: nat, kept: seq<nat>, sqrt: real -> real, ghost outs: seq<Params.FaceOutcome>,
                    ghost t0: FaceTables) returns (r: Outcome<(bool, string)>)
      requires |pm.gases| >= 3 && kept == Params.KeptGases(pm.gases, 3) && structure == pm.structure
      requires |outs| == |pm.faces|
      requires forall j {:trigger Params.FaceRowOf(pm.faces[j], pm.structure, lattA, kept, sqrt)} ::
        0 <= j < |outs| ==> outs[j] == Params.FaceRowOf(pm.faces[j], pm.structure, lattA, kept, sqrt)
      requires |t0.eAds| == |t0.sAds| == |t0.w| == n && Tables() == t0
      modifies this`faceIndex, this`bondLength, this`aAtoms, this`gamma, this`faceD, this`eAds, this`sAds, this`w
      ensures AllAccepted(outs, n) ==> r == Ok((true, ""))
      ensures !AllAccepted(outs, n) ==>
        exists m :: 0 <= m < n && AllAccepted(outs, m) && r == Stop(outs, m) && (m < |outs| ==> !outs[m].FaceOk?)
      ensures r == Ok((true, "")) ==>
        AllAccepted(outs, n) && Tables() == Stored(t0, pm.faces, outs, n) &&
        (n > 0 ==> lattA != 0.0 && (structure == "FCC" || structure == "BCC") &&
                   bondLength == Params.BondLength(structure, lattA)) &&
        (n == 0 ==> bondLength == old(bondLength))
    {
      for m := 0 to n
        invariant AllAccepted(outs, m) && m <= |pm.faces|
        invariant Tables() == Stored(t0, pm.faces, outs, m)
        invariant m > 0 ==> lattA != 0.0 && (structure == "FCC" || structure == "BCC") &&
                            bondLength == Params.BondLength(structure, lattA)
        invariant m == 0 ==> bondLength == old(bondLength)
      {
        if m >= |pm.faces| {
          return Raised("KeyError");
        }
        var outcome := ReadFace(pm, m, kept, sqrt, outs);
        match outcome {
          case FaceBadIndex => return Ok((false, Params.BadFaceMessage(m)));
          case FaceRaised(e) => return Raised(e);
          case FaceNonFinite => return NonFinite;
          case FaceOk(_) =>
        }
      }
      r := Ok((true, ""));
    }

    /** `face_num`, the zero tables, the monolayer coverages and an empty `face_d`, before any face is read. */
    method ClearTables(n: nat, g: nat)
      modifies this`faceNum, this`eAds, this`sAds, this`w, this`thetaML, this`faceD
      ensures faceNum == n && thetaML == Ones(n)
      ensures Tables() == ZeroTables(faceIndex, aAtoms, gamma, n, g)
    {
      faceNum := n;
      eAds := seq(n, _ => Zeros(g));
      sAds := seq(n, _ => Zeros(g));
      w := seq(n, _ => seq(g, _ => Zeros(g)));
      thetaML := Ones(n);
      faceD := map[];
    }

    /**
     * The face loop: zero tables of `nFaces` rows (numpy refuses a negative
     * size), then per face its index text is appended, the bond length set
     * once the index has three tokens and the structure is known, and an
     * accepted face stored; the first face that is missing or not accepted
     * ends the loop with its outcome.
     */
    method ReadFaces(pm: ParaMap, sqrt: real -> real, ghost outs: seq<Params.FaceOutcome>) returns (r: Outcome<(bool, string)>)
      requires |pm.gases| >= 3 && structure == pm.structure && nGas == |Params.KeptGases(pm.gases, 3)|
      requires |outs| == |pm.faces|
      requires forall j {:trigger Params.FaceRowOf(pm.faces[j], pm.structure, lattA, Params.KeptGases(pm.gases, 3), sqrt)} ::
        0 <= j < |outs| ==> outs[j] == Params.FaceRowOf(pm.faces[j], pm.structure, lattA, Params.KeptGases(pm.gases, 3), sqrt)
      modifies this`faceNum, this`eAds, this`sAds, this`w, this`thetaML, this`faceD
      modifies this`faceIndex, this`bondLength, this`aAtoms, this`gamma
      ensures pm.nFaces < 0 ==> r == Raised("ValueError")
      ensures pm.nFaces >= 0 && AllAccepted(outs, pm.nFaces) ==> r == Ok((true, ""))
      ensures pm.nFaces >= 0 && !AllAccepted(outs, pm.nFaces) ==>
        exists m :: 0 <= m < pm.nFaces && AllAccepted(outs, m) && r == Stop(outs, m) &&
                    (m < |outs| ==> !outs[m].FaceOk?)
      ensures r == Ok((true, "")) ==>
        var n := pm.nFaces;
        var g := |Params.KeptGases(pm.gases, 3)|;
        n >= 0 && AllAccepted(outs, n) && faceNum == n && thetaML == Ones(n) &&
        Tables() == Stored(ZeroTables(old(faceIndex), old(aAtoms), old(gamma), n, g), pm.faces, outs, n) &&
        (n > 0 ==> lattA != 0.0 && (structure == "FCC" || structure == "BCC") &&
                   bondLength == Params.BondLength(structure, lattA)) &&
        (n == 0 ==> bondLength == old(bondLength))
    {
      if pm.nFaces < 0 {
        return Raised("ValueError");
      }
      var n := pm.nFaces;
      var kept := Params.KeptGases(pm.gases, 3);
      var g := |kept|;
      ghost var t0 := ZeroTables(faceIndex, aAtoms, gamma, n, g);
      ClearTables(n, g);
      r := FaceLoop(pm, n, kept, sqrt, outs, t0);
    }

    /**
     * `gen_coverage`: for each face, the solver's accepted root clamped to
     * the face's monolayer coverage. The roots come from a random-restart
     * loop around `fsolve` and are taken as given; the loop only leaves with
     * a root that passes its test, which the precondition states.
     */
    method GenCoverage(roots: seq<seq<real>>, exp: real -> real, sqrt: real -> real)
      requires Loaded() && |roots| == faceNum
      requires forall m :: 0 <= m < faceNum ==>
        Coverage.Accepted(nGas, Coverage.Gases(rPP, sGas, adsType), Coverage.FaceTerms(eAds[m], sAds[m], w[m]),
                          t, exp, sqrt, roots[m])
      modifies this`coverage
      ensures |coverage| == faceNum
      ensures forall m :: 0 <= m < faceNum ==>
        |roots[m]| == nGas + 1 && coverage[m] == Coverage.FaceCoverage(roots[m], thetaML[m], nGas)
      ensures forall m :: 0 <= m < faceNum ==>
        |coverage[m]| == nGas && forall k :: 0 <= k < nGas ==> 0.0 <= coverage[m][k] <= 1.0
    {
      var zeros := Zeros(nGas);
      coverage := seq(faceNum, _ => zeros);
      for m := 0 to faceNum
        invariant |coverage| == faceNum
        invariant forall j :: 0 <= j < m ==>
          |roots[j]| == nGas + 1 && coverage[j] == Coverage.FaceCoverage(roots[j], thetaML[j], nGas)
        invariant forall j :: 0 <= j < m ==>
          |coverage[j]| == nGas && forall k :: 0 <= k < nGas ==> 0.0 <= coverage[j][k] <= 1.0
      {
        Coverage.AcceptedRoot(nGas, Coverage.Gases(rPP, sGas, adsType), Coverage.FaceTerms(eAds[m], sAds[m], w[m]),
                              t, exp, sqrt, roots[m]);
        Coverage.CoverageWithinCap(roots[m], thetaML[m], nGas);
        var theta := Coverage.Clamp(roots[m], thetaML[m], nGas);
        coverage := coverage[m := theta[..nGas]];
      }
    }

    /** `planes_dict[p] = face` for every plane p of the face's list. */
    method RecordPlanes(planes: seq<Plane>, face: string)
      modifies this`planesDict
      ensures planesDict == old(planesDict) + map p | p in Lattice.Elements(planes) :: face
    {
      for i := 0 to |planes|
        invariant planesDict == old(planesDict) + map p | p in Lattice.Elements(planes[..i]) :: face
      {
        assert Lattice.Elements(planes[..i + 1]) == Lattice.Elements(planes[..i]) + {planes[i]};
        planesDict := planesDict[planes[i] := face];
      }
      assert planes[..|planes|] == planes;
    }

    /** What the energy correction reads, per face: a coverage per gas, a non-zero area, square interactions. */
    predicate Revisable()
      reads this`faceNum, this`nGas, this`coverage, this`gamma, this`aAtoms, this`eAds, this`w
    {
      faceNum >= 0 && nGas >= 0 &&
      |gamma| == faceNum && |aAtoms| == faceNum && |eAds| == faceNum && |w| == faceNum && |coverage| == faceNum &&
      forall m :: 0 <= m < faceNum ==>
        aAtoms[m] != 0.0 && |eAds[m]| == nGas && |coverage[m]| == nGas && Coverage.Square(w[m], nGas)
    }

    /** Face m's surface energy corrected for its coverage. */
    method ReviseFace(m: nat)
      requires Revisable() && m < faceNum == |revisedGamma|
      modifies this`revisedGamma
      ensures revisedGamma ==
        old(revisedGamma)[m := Surface.RevisedGamma(gamma[m], aAtoms[m], eAds[m], w[m], coverage[m], nGas)]
    {
      revisedGamma := revisedGamma[m := Surface.RevisedGamma(gamma[m], aAtoms[m], eAds[m], w[m], coverage[m], nGas)];
    }

    /** Face m's planes, listed by `get_planes` and recorded in `planes_dict` under the face. */
    method ListFace(m: nat) returns (plane: Option<seq<Plane>>)
      requires m < |faceIndex| && (structure == "FCC" || structure == "BCC")
      modifies this`planesDict
      ensures plane.None? <==> Lattice.ParseIndexChars(faceIndex[m]).None?
      ensures plane.None? ==> planesDict == old(planesDict)
      ensures plane.Some? ==>
        Lattice.NoDuplicates(plane.value) && Lattice.Elements(plane.value) == Surface.FamilyOf(faceIndex[m], structure) &&
        planesDict == old(planesDict) + map p | p in Surface.FamilyOf(faceIndex[m], structure) :: faceIndex[m]
    {
      var got := Lattice.GetPlanes(faceIndex[m], structure);
      if got.Ok? {
        RecordPlanes(got.value, faceIndex[m]);
        plane := Some(got.value);
      } else {
        plane := None;
      }
    }

    /** The surface energies of the faces before m corrected for their coverage. */
    predicate EnergiesUpTo(m: nat)
      reads this`faceNum, this`nGas, this`coverage, this`gamma, this`aAtoms, this`eAds, this`w, this`revisedGamma
    {
      Revisable() && m <= faceNum == |revisedGamma| &&
      forall j :: 0 <= j < m ==>
        revisedGamma[j] == Surface.RevisedGamma(gamma[j], aAtoms[j], eAds[j], w[j], coverage[j], nGas)
    }

    /**
     * The faces before m listed by `get_planes` and recorded in
     * `planes_dict`; the planes and energies so far are the flattened lists.
     */
    predicate ListedUpTo(m: nat, lists: seq<seq<Plane>>, planes: seq<Plane>, energies: seq<real>)
      reads this`faceIndex, this`structure, this`revisedGamma, this`planesDict
    {
      m <= |faceIndex| && m <= |revisedGamma| && |lists| == m &&
      (forall j :: 0 <= j < m ==>
         Lattice.ParseIndexChars(faceIndex[j]).Some? &&
         Lattice.NoDuplicates(lists[j]) && Lattice.Elements(lists[j]) == Surface.FamilyOf(faceIndex[j], structure)) &&
      planesDict == Surface.PlanesDict(faceIndex, structure, m) &&
      planes == Surface.Flatten(lists) && energies == Surface.Repeated(lists, revisedGamma)
    }

    /** Face m's energy corrected; the lists so far do not read it. */
    method EnergyStep(m: nat, ghost lists: seq<seq<Plane>>, ghost planes: seq<Plane>, ghost energies: seq<real>)
      requires EnergiesUpTo(m) && ListedUpTo(m, lists, planes, energies) && m < faceNum
      modifies this`revisedGamma
      ensures EnergiesUpTo(m + 1) && ListedUpTo(m, lists, planes, energies)
    {
      ghost var before := revisedGamma;
      ReviseFace(m);
      Surface.RepeatedPrefix(lists, before, revisedGamma);
    }

    /** Face m's planes listed and recorded; false when `get_planes` raises on it. */
    method ListStep(m: nat, ghost lists: seq<seq<Plane>>, planes: seq<Plane>, energies: seq<real>)
      returns (ok: bool, ghost lists': seq<seq<Plane>>, planes': seq<Plane>, energies': seq<real>)
      requires ListedUpTo(m, lists, planes, energies) && m < |faceIndex| && m < |revisedGamma|
      requires structure == "FCC" || structure == "BCC"
      modifies this`planesDict
      ensures ok <==> Lattice.ParseIndexChars(faceIndex[m]).Some?
      ensures ok ==> ListedUpTo(m + 1, lists', planes', energies')
    {
      var plane := ListFace(m);
      if plane.None? {
        return false, lists, planes, energies;
      }
      var rg := revisedGamma[m];
      Surface.RepeatedSnoc(lists, plane.value, revisedGamma);
      ok, lists', planes', energies' := true, lists + [plane.value], planes + plane.value,
                                         energies + seq(|plane.value|, _ => rg);
    }

    /** One pass of the face loop: face m's energy corrected, then its planes listed and recorded. */
    method FaceStep(m: nat, ghost lists: seq<seq<Plane>>, planes: seq<Plane>, energies: seq<real>)
      returns (ok: bool, ghost lists': seq<seq<Plane>>, planes': seq<Plane>, energies': seq<real>)
      requires EnergiesUpTo(m) && ListedUpTo(m, lists, planes, energies) && m < faceNum == |faceIndex|
      requires structure == "FCC" || structure == "BCC"
      modifies this`revisedGamma, this`planesDict
      ensures ok <==> Lattice.ParseIndexChars(faceIndex[m]).Some?
      ensures forall j :: 0 <= j < m ==> Lattice.ParseIndexChars(faceIndex[j]).Some?
      ensures ok ==> EnergiesUpTo(m + 1) && ListedUpTo(m + 1, lists', planes', energies')
    {
      EnergyStep(m, lists, planes, energies);
      ok, lists', planes', energies' := ListStep(m, lists, planes, energies);
    }

    /** The loop of `gen_surface_energies` over the faces, on zeroed energies and an empty `planes_dict`. */
    method SurfaceLoop() returns (r: Outcome<(seq<Plane>, seq<real>)>, ghost lists: seq<seq<Plane>>)
      requires Revisable() && |faceIndex| == faceNum == |revisedGamma| && planesDict == map[]
      requires faceNum > 0 ==> structure == "FCC" || structure == "BCC"
      modifies this`revisedGamma, this`planesDict
      ensures r.Raised? ==>
        exists m :: 0 <= m < faceNum && Lattice.ParseIndexChars(faceIndex[m]).None? &&
                    (forall j :: 0 <= j < m ==> Lattice.ParseIndexChars(faceIndex[j]).Some?) &&
                    r.error == Lattice.GetPlanesError(faceIndex[m])
      ensures !r.Raised? ==> r.Ok? && EnergiesUpTo(faceNum) && ListedUpTo(faceNum, lists, r.value.0, r.value.1)
    {
      var planes: seq<Plane> := [];
      var energies: seq<real> := [];
      lists := [];
      for m := 0 to faceNum
        invariant EnergiesUpTo(m) && ListedUpTo(m, lists, planes, energies)
      {
        var ok;
        ok, lists, planes, energies := FaceStep(m, lists, planes, energies);
        if !ok {
          return Raised(Lattice.GetPlanesError(faceIndex[m])), lists;
        }
      }
      r := Ok((planes, energies));
    }

    /**
     * `gen_surface_energies`: each face's surface energy corrected for its
     * coverage, and its planes listed, recorded in `planes_dict` and paired
     * with that energy. `get_planes` raises on the first face whose index
     * does not start with three digits.
     */
    method GenSurfaceEnergies() returns (r: Outcome<(seq<Plane>, seq<real>)>, ghost lists: seq<seq<Plane>>)
      requires Loaded() && |coverage| == faceNum && forall m :: 0 <= m < faceNum ==> |coverage[m]| == nGas
      modifies this`revisedGamma, this`planesDict
      ensures r.Raised? ==>
        exists m :: 0 <= m < faceNum && Lattice.ParseIndexChars(faceIndex[m]).None? &&
                    (forall j :: 0 <= j < m ==> Lattice.ParseIndexChars(faceIndex[j]).Some?) &&
                    r.error == Lattice.GetPlanesError(faceIndex[m])
      ensures Loaded()
      ensures !r.Raised? ==> r.Ok? && EnergiesUpTo(faceNum) && ListedUpTo(faceNum, lists, r.value.0, r.value.1)
    {
      revisedGamma := Zeros(faceNum);
      planesDict := map[];
      r, lists := SurfaceLoop();
    }

    /**
     * The gases and then the faces of `get_para`, once the header and the
     * radius are read. A successful read into a fresh object leaves it
     * `Loaded`.
     */
    method ReadBody(pm: ParaMap, sqrt: real -> real, ln: real -> real) returns (r: Outcome<(bool, string)>)
      requires |pm.gases| >= 3 && structure == pm.structure
      modifies this`nGas, this`rPP, this`sGas, this`adsType
      modifies this`faceNum, this`eAds, this`sAds, this`w, this`thetaML, this`faceD
      modifies this`faceIndex, this`bondLength, this`aAtoms, this`gamma
      ensures var gs := Params.GasesUpTo(pm.gases, p, ln, 3);
        (gs.Raised? ==> r == Raised(gs.error)) && (gs.NonFinite? ==> r == NonFinite)
      ensures Params.GasesUpTo(pm.gases, p, ln, 3).Ok? ==>
        var gs := Params.GasesUpTo(pm.gases, p, ln, 3).value;
        var outs := Outcomes(pm, lattA, sqrt);
        rPP == old(rPP) + gs.rPP && sGas == old(sGas) + gs.sGas && adsType == old(adsType) + gs.adsType &&
        nGas == |Params.KeptGases(pm.gases, 3)| &&
        (pm.nFaces < 0 ==> r == Raised("ValueError")) &&
        (pm.nFaces >= 0 && AllAccepted(outs, pm.nFaces) ==> r == Ok((true, ""))) &&
        (pm.nFaces >= 0 && !AllAccepted(outs, pm.nFaces) ==>
           exists m :: 0 <= m < pm.nFaces && AllAccepted(outs, m) && r == Stop(outs, m) &&
                       (m < |outs| ==> !outs[m].FaceOk?))
      ensures r == Ok((true, "")) ==>
        var n := pm.nFaces;
        Params.GasesUpTo(pm.gases, p, ln, 3).Ok? && n >= 0 && faceNum == n && thetaML == Ones(n) &&
        Tables() == Stored(ZeroTables(old(faceIndex), old(aAtoms), old(gamma), n, |Params.KeptGases(pm.gases, 3)|),
                           pm.faces, Outcomes(pm, lattA, sqrt), n) &&
        (n > 0 ==> lattA != 0.0 && (structure == "FCC" || structure == "BCC") &&
                   bondLength == Params.BondLength(structure, lattA))
      ensures old(Fresh()) && r == Ok((true, "")) ==> Loaded()
    {
      var gr := ReadGases(pm.gases, ln);
      if gr.Raised? {
        return Raised(gr.error);
      } else if gr.NonFinite? {
        return NonFinite;
      }
      ghost var outs := Outcomes(pm, lattA, sqrt);
      OutcomesAll(pm, lattA, sqrt);
      r := ReadFaces(pm, sqrt, outs);
      if old(Fresh()) && r == Ok((true, "")) {
        StoredLoaded(pm, lattA, sqrt, pm.nFaces);
      }
    }

    /**
     * `get_para`: the header, the radius (a ValueError here is not caught),
     * the three gases (a KeyError when the map holds fewer), then the faces.
     */
    method GetPara(pm: ParaMap, sqrt: real -> real, ln: real -> real) returns (r: Outcome<(bool, string)>)
      modifies this`ele, this`structure, this`lattA, this`p, this`t, this`d
      modifies this`nGas, this`rPP, this`sGas, this`adsType
      modifies this`faceNum, this`eAds, this`sAds, this`w, this`thetaML, this`faceD
      modifies this`faceIndex, this`bondLength, this`aAtoms, this`gamma
      ensures ele == pm.element && structure == pm.structure
      ensures var a := PyText.ParseReal(pm.lattice);
        lattA == (if a.Some? then a.value else old(lattA))
      ensures var a, pr := PyText.ParseReal(pm.lattice), PyText.ParseReal(pm.pressure);
        p == (if a.Some? && pr.Some? then pr.value else old(p))
      ensures var a, pr, te := PyText.ParseReal(pm.lattice), PyText.ParseReal(pm.pressure), PyText.ParseReal(pm.temperature);
        t == (if a.Some? && pr.Some? && te.Some? then te.value else old(t))
      ensures var rad := PyText.ParseReal(pm.radius);
        (rad.None? ==> r == Raised("ValueError")) &&
        (rad.Some? ==> d == rad.value) &&
        (rad.Some? && |pm.gases| < 3 ==> r == Raised("KeyError"))
      ensures PyText.ParseReal(pm.radius).Some? && |pm.gases| >= 3 ==>
        var gs := Params.GasesUpTo(pm.gases, p, ln, 3);
        (gs.Raised? ==> r == Raised(gs.error)) && (gs.NonFinite? ==> r == NonFinite) &&
        (gs.Ok? ==>
          var outs := Outcomes(pm, lattA, sqrt);
          nGas == |Params.KeptGases(pm.gases, 3)| &&
          (pm.nFaces < 0 ==> r == Raised("ValueError")) &&
          (pm.nFaces >= 0 && AllAccepted(outs, pm.nFaces) ==> r == Ok((true, ""))) &&
          (pm.nFaces >= 0 && !AllAccepted(outs, pm.nFaces) ==>
             exists m :: 0 <= m < pm.nFaces && AllAccepted(outs, m) && r == Stop(outs, m) &&
                         (m < |outs| ==> !outs[m].FaceOk?)))
      ensures old(Fresh()) && r == Ok((true, "")) ==> Loaded()
    {
      ReadHeader(pm);
      var rad := PyText.ParseReal(pm.radius);
      if rad.None? {
        return Raised("ValueError");
      }
      d := rad.value;
      if |pm.gases| < 3 {
        return Raised("KeyError");
      }
      r := ReadBody(pm, sqrt, ln);
    }

    /** The fields the shape depends on. */
    function ShapeSetting(): Setting
      reads this`revisedGamma, this`d, this`lattA, this`structure, this`bondLength, this`ele
      reads this`planesDict, this`faceD, this`faceIndex
    {
      Setting(revisedGamma, d, lattA, structure, bondLength, ele, planesDict, faceD, faceIndex)
    }

    /**
     * The cut, the coordination analysis and the classification of the kept
     * atoms: the particle to record, when the cut succeeds.
     */
    method Classify(bulk: seq<Point>, planes: seq<Plane>, length: seq<real>, sqrt: real -> real)
      returns (r: Outcome<(int, string)>, particle: Option<Particle>)
      requires |length| == |planes| && Marking.Keyed(Marking.Frame(structure, planes, planesDict, faceD, faceIndex))
      ensures r == CutOutcome(bulk, planes, length, sqrt, bondLength)
      ensures r.Ok? ==> particle == Some(ParticleOf(bulk, planes, length, sqrt, bondLength, ele, Marking.Frame(structure, planes, planesDict, faceD, faceIndex)))
      ensures !r.Ok? ==> particle == None
    {
      particle := None;
      if !Cluster.NonZeroNorms(planes, sqrt) {
        r := NonFinite;
      } else {
        var (coords, rows) := Cut(bulk, planes, length, sqrt);
        var stats := Coordination.SurfCount(coords, bondLength, sqrt, structure);
        if stats.Raised? {
          r := Raised(stats.error);
        } else {
          var p := Mark(coords, rows, stats.value, planes);
          particle := Some(p);
          r := Ok((1, ""));
        }
      }
    }

    /** `mark_atoms` on the kept atoms, and the record of the particle `geometry` keeps. */
    method Mark(coords: seq<Point>, rows: seq<seq<real>>, stats: Coordination.SurfStats, planes: seq<Plane>)
      returns (p: Particle)
      requires |stats.coorNumber| == |rows| == |coords| > 0 && Marking.Rows(rows, |planes|)
      requires Marking.Keyed(Marking.Frame(structure, planes, planesDict, faceD, faceIndex))
      requires stats.nsurf == Coordination.CountBelow(stats.coorNumber, Coordination.SurfaceLimit(structure))
      ensures p ==
        Recording(coords, stats.coorNumber, Marking.Classified(stats.coorNumber, rows, Marking.Frame(structure, planes, planesDict, faceD, faceIndex)), ele, structure)
    {
      var mk := Marking.MarkAtoms(stats.coorNumber, rows, Marking.Frame(structure, planes, planesDict, faceD, faceIndex));
      p := Recording(coords, stats.coorNumber, mk, ele, structure);
    }

    /** The particle `geometry` keeps: positions, elements, site types and the face summary. */
    method Record(p: Particle, ghost lists: seq<seq<Plane>>, ghost planes: seq<Plane>, ghost energies: seq<real>)
      requires faceNum >= 0 && EnergiesUpTo(faceNum) && ListedUpTo(faceNum, lists, planes, energies)
      modifies this`cluster
      ensures cluster == p
      ensures ShapeSetting() == old(ShapeSetting())
      ensures EnergiesUpTo(faceNum) && ListedUpTo(faceNum, lists, planes, energies)
    {
      cluster := p;
    }

    /** The part of `geometry` after `gen_surface_energies`. */
    method Shape(planes: seq<Plane>, energies: seq<real>, ghost lists: seq<seq<Plane>>, sqrt: real -> real)
      returns (r: Outcome<(int, string)>, length: seq<real>, dim: real, bulk: seq<Point>, particle: Option<Particle>)
      requires Loaded() && EnergiesUpTo(faceNum) && ListedUpTo(faceNum, lists, planes, energies)
      ensures Shaped(ShapeSetting(), planes, energies, sqrt, r, length, dim, bulk, particle)
    {
      ghost var s := ShapeSetting();
      length, dim, bulk, particle := [], 0.0, [], None;
      var broken := Broken();
      if broken {
        r := Ok((0, BrokenMessage));
        assert StageOf(s.revisedGamma, energies) == BrokenEnergies;
      } else if |energies| == 0 {
        r := Raised("ValueError");
        assert StageOf(s.revisedGamma, energies) == NoPlanes;
      } else {
        EnergiesReady(revisedGamma, lists, faceIndex, structure, faceD);
        r, length, dim, bulk, particle := Build(planes, energies, sqrt);
        assert StageOf(s.revisedGamma, energies) == Proceed;
      }
    }

    /** The lengths, the bulk, the cut and the classification, for positive energies. */
    method Build(planes: seq<Plane>, energies: seq<real>, sqrt: real -> real)
      returns (r: Outcome<(int, string)>, length: seq<real>, dim: real, bulk: seq<Point>, particle: Option<Particle>)
      requires |energies| == |planes| > 0 && MinOf(energies) > 0.0
      requires lattA != 0.0 && (structure == "FCC" || structure == "BCC")
      requires Marking.Keyed(Marking.Frame(structure, planes, planesDict, faceD, faceIndex))
      ensures Built(ShapeSetting(), planes, energies, sqrt, r, length, dim, bulk, particle)
    {
      length := Lengths(energies, d);
      dim := MinOf(length) * 3.0;
      bulk := BuildBulk(structure, lattA, dim);
      r, particle := Classify(bulk, planes, length, sqrt);
    }

    /** `sum(self.revised_gamma > 0) != self.face_num`: some corrected energy is not positive. */
    method Broken() returns (b: bool)
      requires |revisedGamma| == faceNum
      ensures b <==> exists m :: 0 <= m < faceNum && revisedGamma[m] <= 0.0
    {
      var positive := 0;
      for m := 0 to faceNum
        invariant positive == Positives(revisedGamma, m)
      {
        if revisedGamma[m] > 0.0 {
          positive := positive + 1;
        }
      }
      PositivesAll(revisedGamma, faceNum);
      b := positive != faceNum;
    }

    /** The shape of the particle and, when one is built, its record. */
    method Finish(planes: seq<Plane>, energies: seq<real>, ghost lists: seq<seq<Plane>>, sqrt: real -> real)
      returns (r: Outcome<(int, string)>, length: seq<real>, dim: real, bulk: seq<Point>, particle: Option<Particle>)
      requires Loaded() && EnergiesUpTo(faceNum) && ListedUpTo(faceNum, lists, planes, energies)
      modifies this`cluster
      ensures EnergiesUpTo(faceNum) && ListedUpTo(faceNum, lists, planes, energies)
      ensures Shaped(ShapeSetting(), planes, energies, sqrt, r, length, dim, bulk, particle)
      ensures particle.Some? ==> cluster == particle.value
    {
      r, length, dim, bulk, particle := Shape(planes, energies, lists, sqrt);
      if particle.Some? {
        Record(particle.value, lists, planes, energies);
      }
    }

    /**
     * `geometry`: the surface energies; a particle with a non-positive
     * corrected energy is reported broken; the minimum of an empty energy
     * array raises; otherwise the shape. The output files are not part of
     * this model.
     */
    method Geometry(sqrt: real -> real)
      returns (r: Outcome<(int, string)>, ghost lists: seq<seq<Plane>>, planes: seq<Plane>,
               energies: seq<real>, length: seq<real>, dim: real, bulk: seq<Point>, particle: Option<Particle>)
      requires Loaded() && |coverage| == faceNum && forall m :: 0 <= m < faceNum ==> |coverage[m]| == nGas
      modifies this`revisedGamma, this`planesDict
      modifies this`cluster
      ensures (exists m :: 0 <= m < faceNum && Lattice.ParseIndexChars(faceIndex[m]).None?) ==>
        exists m :: 0 <= m < faceNum && Lattice.ParseIndexChars(faceIndex[m]).None? &&
                    (forall j :: 0 <= j < m ==> Lattice.ParseIndexChars(faceIndex[j]).Some?) &&
                    r == Raised(Lattice.GetPlanesError(faceIndex[m]))
      ensures (forall m :: 0 <= m < faceNum ==> Lattice.ParseIndexChars(faceIndex[m]).Some?) ==>
        EnergiesUpTo(faceNum) && ListedUpTo(faceNum, lists, planes, energies) &&
        Shaped(ShapeSetting(), planes, energies, sqrt, r, length, dim, bulk, particle)
      ensures particle.Some? ==> cluster == particle.value
    {
      var se;
      se, lists := GenSurfaceEnergies();
      planes, energies, length, dim, bulk, particle := [], [], [], 0.0, [], None;
      if se.Raised? {
        r := Raised(se.error);
      } else {
        planes, energies := se.value.0, se.value.1;
        r, length, dim, bulk, particle := Finish(planes, energies, lists, sqrt);
      }
    }
  }
}

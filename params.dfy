/**
 * The value-level pieces of reading the particle parameters: which gases are
 * kept, how a face's per-gas rows are compacted to the kept gases, and the
 * atom area and interplanar spacing chosen for a face from its Miller index.
 */
module Params {
  import opened Common
  import PyText

  // ------------------------------------------------------------ gases

  /** One gas of the parameter map: partial-pressure text, entropy text, adsorption type. */
  datatype GasEntry = GasEntry(pp: string, s: string, adsType: string)

  predicate StrictlyIncreasing(s: seq<nat>)
  {
    forall j, k :: 0 <= j < k < |s| ==> s[j] < s[k]
  }

  /** Indices i < n of the gases whose partial-pressure text is non-empty, in order. */
  function KeptGases(gases: seq<GasEntry>, n: nat): (r: seq<nat>)
    requires n <= |gases|
    ensures StrictlyIncreasing(r) && |r| <= n
    ensures forall k :: 0 <= k < |r| ==> r[k] < n
  {
    if n == 0 then []
    else KeptGases(gases, n - 1) + (if gases[n - 1].pp != "" then [n - 1] else [])
  }

  /** The kept gases are exactly those with non-empty partial-pressure text. */
  lemma {:induction false} KeptGasesMembers(gases: seq<GasEntry>, n: nat)
    requires n <= |gases|
    ensures forall i :: 0 <= i < n ==> (i in KeptGases(gases, n) <==> gases[i].pp != "")
  {
    if n > 0 {
      KeptGasesMembers(gases, n - 1);
    }
  }

  /** Per-gas values gathered for the kept gases. */
  datatype GasTable = GasTable(rPP: seq<real>, sGas: seq<real>, adsType: seq<string>)

  /** What a kept gas contributes: relative partial pressure, corrected entropy, type. */
  datatype GasRow = GasRow(rPP: real, sGas: real, adsType: string)

  /** Partial pressure relative to the total: `PP * P / 100`. */
  function RelPressure(pp: real, p: real): real
  {
    pp * p / 100.0
  }

  /**
   * The body of the gas loop for a kept gas: the relative partial pressure,
   * and the gas entropy corrected by `- k_b * ln(rPP / P0)`. Unparsable text
   * raises ValueError; a non-positive logarithm argument gives numpy's -inf or
   * nan.
   */
  function GasRowOf(g: GasEntry, p: real, ln: real -> real): (r: Outcome<GasRow>)
    ensures r.Raised? ==> r.error == "ValueError"
    ensures r.Ok? ==> r.value.adsType == g.adsType
  {
    match PyText.ParseReal(g.pp)
    case None => Raised("ValueError")
    case Some(pp) =>
      var rpp := RelPressure(pp, p);
      match PyText.ParseReal(g.s)
      case None => Raised("ValueError")
      case Some(s) =>
        if rpp / P0 <= 0.0 then NonFinite
        else Ok(GasRow(rpp, s - KB * ln(rpp / P0), g.adsType))
  }

  /**
   * A kept gas is accepted exactly when both texts parse and the logarithm's
   * argument is positive, and then carries the relative pressure and the
   * corrected entropy; the only exception is ValueError, for unparsable text.
   */
  lemma GasRowOfMeaning(g: GasEntry, p: real, ln: real -> real)
    ensures var r := GasRowOf(g, p, ln);
      r.Ok? <==> PyText.ParseReal(g.pp).Some? && PyText.ParseReal(g.s).Some? &&
                 RelPressure(PyText.ParseReal(g.pp).value, p) / P0 > 0.0
    ensures var r := GasRowOf(g, p, ln);
      r.Ok? ==>
        var rpp := RelPressure(PyText.ParseReal(g.pp).value, p);
        r.value == GasRow(rpp, PyText.ParseReal(g.s).value - KB * ln(rpp / P0), g.adsType)
    ensures var r := GasRowOf(g, p, ln);
      r == Raised("ValueError") <==> PyText.ParseReal(g.pp).None? || PyText.ParseReal(g.s).None?
  {
  }

  /** Each gas's contribution were it kept. */
  function RowsOf(gases: seq<GasEntry>, p: real, ln: real -> real): (rows: seq<Outcome<GasRow>>)
    ensures |rows| == |gases|
  {
    seq(|gases|, i requires 0 <= i < |gases| => GasRowOf(gases[i], p, ln))
  }

  /**
   * What the gas loop has gathered after gas i - 1, given each gas's
   * contribution: a gas with empty pressure text is dropped, and the first
   * failing kept gas stops the loop.
   */
  /**
   * One gas of the gas loop after the table tb: a gas with empty pressure
   * text is dropped, a kept gas's row is appended, and a failing row stops
   * the loop with its outcome.
   */
  function GatherStep(tb: GasTable, g: GasEntry, row: Outcome<GasRow>): (r: Outcome<GasTable>)
    ensures r.Ok? <==> g.pp == "" || row.Ok?
    ensures g.pp == "" ==> r == Ok(tb)
    ensures g.pp != "" && row.Ok? ==>
      r.value == GasTable(tb.rPP + [row.value.rPP], tb.sGas + [row.value.sGas], tb.adsType + [row.value.adsType])
    ensures g.pp != "" && row.Raised? ==> r == Raised(row.error)
    ensures g.pp != "" && row.NonFinite? ==> r == NonFinite
  {
    if g.pp == "" then Ok(tb)
    else
      match row
      case Ok(x) => Ok(GasTable(tb.rPP + [x.rPP], tb.sGas + [x.sGas], tb.adsType + [x.adsType]))
      case Raised(e) => Raised(e)
      case NonFinite => NonFinite
  }

  /** The table `head` followed by the table `tail`, entry list by entry list. */
  function Joined(head: GasTable, tail: GasTable): GasTable
  {
    GasTable(head.rPP + tail.rPP, head.sGas + tail.sGas, head.adsType + tail.adsType)
  }

  function GatherUpTo(gases: seq<GasEntry>, rows: seq<Outcome<GasRow>>, i: nat): (r: Outcome<GasTable>)
    requires i <= |gases| == |rows|
    ensures r.Ok? ==> |r.value.rPP| == |r.value.sGas| == |r.value.adsType| == |KeptGases(gases, i)|
  {
    if i == 0 then Ok(GasTable([], [], []))
    else
      match GatherUpTo(gases, rows, i - 1)
      case Ok(tb) => GatherStep(tb, gases[i - 1], rows[i - 1])
      case Raised(e) => Raised(e)
      case NonFinite => NonFinite
  }

  function GasesUpTo(gases: seq<GasEntry>, p: real, ln: real -> real, i: nat): Outcome<GasTable>
    requires i <= |gases|
  {
    GatherUpTo(gases, RowsOf(gases, p, ln), i)
  }

  /** One more gas is one more step of the loop. */
  lemma GatherNext(gases: seq<GasEntry>, rows: seq<Outcome<GasRow>>, i: nat)
    requires i < |gases| == |rows| && GatherUpTo(gases, rows, i).Ok?
    ensures GatherUpTo(gases, rows, i + 1) == GatherStep(GatherUpTo(gases, rows, i).value, gases[i], rows[i])
    ensures |KeptGases(gases, i + 1)| == |KeptGases(gases, i)| + (if gases[i].pp == "" then 0 else 1)
  {
  }

  /** Once the gas loop has stopped on a failure, later gases change nothing. */
  lemma {:induction false} GatherStaysFailed(gases: seq<GasEntry>, rows: seq<Outcome<GasRow>>, i: nat, j: nat)
    requires i <= j <= |gases| == |rows| && !GatherUpTo(gases, rows, i).Ok?
    ensures GatherUpTo(gases, rows, j) == GatherUpTo(gases, rows, i)
  {
    if j > i {
      GatherStaysFailed(gases, rows, i, j - 1);
    }
  }

  /** Entry x of the gathered table is what kept gas x contributes, in the order of the gases. */
  lemma {:induction false} GatherValues(gases: seq<GasEntry>, rows: seq<Outcome<GasRow>>, i: nat)
    requires i <= |gases| == |rows| && GatherUpTo(gases, rows, i).Ok?
    ensures var tb := GatherUpTo(gases, rows, i).value;
      var kept := KeptGases(gases, i);
      forall x :: 0 <= x < |kept| ==> rows[kept[x]] == Ok(GasRow(tb.rPP[x], tb.sGas[x], tb.adsType[x]))
  {
    if i > 0 {
      var prev := GatherUpTo(gases, rows, i - 1);
      assert prev.Ok?;
      GatherValues(gases, rows, i - 1);
      var tb := GatherUpTo(gases, rows, i).value;
      var kept := KeptGases(gases, i);
      var before := KeptGases(gases, i - 1);
      if gases[i - 1].pp == "" {
        assert tb == prev.value && kept == before;
      } else {
        assert kept == before + [i - 1];
        forall x | 0 <= x < |kept|
          ensures rows[kept[x]] == Ok(GasRow(tb.rPP[x], tb.sGas[x], tb.adsType[x]))
        {
          if x < |before| {
            assert kept[x] == before[x];
          }
        }
      }
    }
  }

  /** The gas loop stops with the first failing kept gas's outcome, and succeeds when none fails. */
  lemma {:induction false} GatherFails(gases: seq<GasEntry>, rows: seq<Outcome<GasRow>>, i: nat)
    requires i <= |gases| == |rows|
    ensures GatherUpTo(gases, rows, i).Ok? <==>
            forall j :: 0 <= j < i && gases[j].pp != "" ==> rows[j].Ok?
  {
    if i > 0 {
      GatherFails(gases, rows, i - 1);
      var prev := GatherUpTo(gases, rows, i - 1);
      var g := gases[i - 1];
      if !prev.Ok? {
        assert !GatherUpTo(gases, rows, i).Ok?;
      } else if g.pp != "" && !rows[i - 1].Ok? {
        assert !GatherUpTo(gases, rows, i).Ok?;
      } else {
        assert GatherUpTo(gases, rows, i).Ok?;
      }
    }
  }

  /** With the contributions of the gases themselves, kept gas x's entries come from its own texts. */
  lemma GasesUpToValues(gases: seq<GasEntry>, p: real, ln: real -> real, i: nat)
    requires i <= |gases| && GasesUpTo(gases, p, ln, i).Ok?
    ensures var tb := GasesUpTo(gases, p, ln, i).value;
      var kept := KeptGases(gases, i);
      forall x :: 0 <= x < |kept| ==> GasRowOf(gases[kept[x]], p, ln) == Ok(GasRow(tb.rPP[x], tb.sGas[x], tb.adsType[x]))
  {
    GatherValues(gases, RowsOf(gases, p, ln), i);
  }

  // ------------------------------------------------------------ compaction

  /** Row entries of the kept gases, in order; `None` when a kept index is out of range (IndexError). */
  function Compact(row: seq<real>, kept: seq<nat>): (r: Option<seq<real>>)
    ensures r.Some? <==> forall x :: 0 <= x < |kept| ==> kept[x] < |row|
    ensures r.Some? ==> |r.value| == |kept| && forall x :: 0 <= x < |kept| ==> r.value[x] == row[kept[x]]
  {
    if forall x :: 0 <= x < |kept| ==> kept[x] < |row| then
      Some(seq(|kept|, x requires 0 <= x < |kept| => row[kept[x]]))
    else None
  }

  predicate Rectangular(w: seq<seq<real>>)
  {
    forall i, j :: 0 <= i < |w| && 0 <= j < |w| ==> |w[i]| == |w[j]|
  }

  predicate SymmetricMatrix(w: seq<seq<real>>)
  {
    forall i, j :: 0 <= i < |w| && 0 <= j < |w| ==> j < |w[i]| && i < |w[j]| && w[i][j] == w[j][i]
  }

  /**
   * The interaction matrix restricted to the kept gases. A ragged matrix makes
   * `np.array` raise ValueError; a kept index beyond its size raises
   * IndexError.
   */
  function CompactMatrix(w: seq<seq<real>>, kept: seq<nat>): (r: Outcome<seq<seq<real>>>)
    ensures r.Raised? || r.Ok?
    ensures r.Ok? ==> |r.value| == |kept|
    ensures r.Ok? ==> forall x :: 0 <= x < |kept| ==> |r.value[x]| == |kept|
    ensures r.Ok? ==> forall x, y :: 0 <= x < |kept| && 0 <= y < |kept| ==>
      kept[x] < |w| && kept[y] < |w[kept[x]]| && r.value[x][y] == w[kept[x]][kept[y]]
  {
    if !Rectangular(w) then Raised("ValueError")
    else if forall x, y :: 0 <= x < |kept| && 0 <= y < |kept| ==> kept[x] < |w| && kept[y] < |w[kept[x]]| then
      Ok(seq(|kept|, x requires 0 <= x < |kept| =>
           seq(|kept|, y requires 0 <= y < |kept| => w[kept[x]][kept[y]])))
    else Raised("IndexError")
  }

  /** Dropping gases keeps a symmetric interaction matrix symmetric. */
  lemma CompactKeepsSymmetry(w: seq<seq<real>>, kept: seq<nat>)
    requires SymmetricMatrix(w) && CompactMatrix(w, kept).Ok?
    ensures SymmetricMatrix(CompactMatrix(w, kept).value)
  {
    var c := CompactMatrix(w, kept).value;
    forall x, y | 0 <= x < |c| && 0 <= y < |c|
      ensures y < |c[x]| && x < |c[y]| && c[x][y] == c[y][x]
    {
      assert c[x][y] == w[kept[x]][kept[y]];
    }
  }

  // ------------------------------------------------------------ faces

  /** Bond length for the structure, as `get_para` sets it. */
  function BondLength(structure: string, a: real): (b: real)
    requires structure == "FCC" || structure == "BCC"
    ensures a > 0.0 ==> b > 0.0
  {
    if structure == "FCC" then 1.45 / 2.0 * a else 1.75 / 2.0 * a
  }

  /**
   * The divisor of the atom area: for FCC 4 when h, k, l are all odd and 2
   * otherwise; for BCC 1 when h + k + l is odd and 2 otherwise. (Python's
   * `% 2` and Dafny's agree on being zero.)
   */
  function AreaDivisor(structure: string, h: int, k: int, l: int): (div: real)
    requires structure == "FCC" || structure == "BCC"
    ensures div == 1.0 || div == 2.0 || div == 4.0
  {
    if structure == "FCC" then
      if h % 2 != 0 && k % 2 != 0 && l % 2 != 0 then 4.0 else 2.0
    else
      if (h + k + l) % 2 != 0 then 1.0 else 2.0
  }

  function NormSquared(h: int, k: int, l: int): int
  {
    h * h + k * k + l * l
  }

  /** Atom area and interplanar spacing of one face. */
  datatype FaceGeometry = FaceGeometry(area: real, spacing: real)

  /**
   * `A = a^2 sqrt(h^2+k^2+l^2) / div` and `distance = a^3 / A / div`; a zero
   * area makes the spacing numpy's inf or nan.
   */
  function FaceAreaSpacing(structure: string, a: real, h: int, k: int, l: int, sqrt: real -> real)
    : (r: Option<FaceGeometry>)
    requires structure == "FCC" || structure == "BCC"
    ensures r.None? <==> a * a * sqrt(NormSquared(h, k, l) as real) == 0.0
    ensures r.Some? ==> r.value.area != 0.0 && a != 0.0
  {
    var div := AreaDivisor(structure, h, k, l);
    var area := a * a * sqrt(NormSquared(h, k, l) as real) / div;
    if area == 0.0 then None
    else Some(FaceGeometry(area, a * a * a / area / div))
  }

  /**
   * Whichever divisor is chosen, the spacing is the lattice constant over the
   * index norm: the divisor cancels.
   */
  lemma SpacingIsLatticeOverNorm(structure: string, a: real, h: int, k: int, l: int, sqrt: real -> real)
    requires structure == "FCC" || structure == "BCC"
    requires FaceAreaSpacing(structure, a, h, k, l, sqrt).Some?
    ensures sqrt(NormSquared(h, k, l) as real) != 0.0
    ensures FaceAreaSpacing(structure, a, h, k, l, sqrt).value.spacing == a / sqrt(NormSquared(h, k, l) as real)
  {
    var s := sqrt(NormSquared(h, k, l) as real);
    var div := AreaDivisor(structure, h, k, l);
    CancelDivisor(a, s, div);
  }

  lemma CancelDivisor(a: real, s: real, div: real)
    requires div > 0.0 && a * a * s / div != 0.0
    ensures s != 0.0 && a != 0.0
    ensures a * a * a / (a * a * s / div) / div == a / s
  {
    var q := a * a * s;
    var area := q / div;
    assert q != 0.0;
    assert area * div == q;
    var x := a * a * a / area;
    assert x * area == a * a * a;
    var y := x / div;
    assert y * div == x;
    assert y * q == a * a * a by {
      calc {
        y * q;
        y * (area * div);
        (y * div) * area;
        x * area;
      }
    }
    assert (y * s) * (a * a) == a * (a * a);
    assert y * s == a;
  }

  /** A face index "h k l" of three tokens; `None` unless there are exactly three. */
  function Triple(index: seq<int>): Option<(int, int, int)>
  {
    if |index| == 3 then Some((index[0], index[1], index[2])) else None
  }

  /** The message returned for a face whose index does not hold three tokens. */
  function BadFaceMessage(m: nat): string
  {
    "Please check the face index of face" + IntText(m + 1)
  }

  /** Bond length `get_para` sets for the structure; `None` for a structure it does not know. */
  function BondLengthOf(structure: string, a: real): (r: Option<real>)
    ensures r.Some? <==> structure == "FCC" || structure == "BCC" || structure == "HCP"
    ensures (structure == "FCC" || structure == "BCC") ==> r == Some(BondLength(structure, a))
  {
    if structure == "FCC" || structure == "BCC" then Some(BondLength(structure, a))
    else if structure == "HCP" then Some(1.05 * a)
    else None
  }

  /** One face of the parameter map: index text, surface-energy text, per-gas rows. */
  datatype FaceEntry = FaceEntry(index: string, gamma: string, eAds: seq<real>, sAds: seq<real>, w: seq<seq<real>>)

  /** What one face contributes: area per atom, spacing, surface energy, compacted rows. */
  datatype FaceRow = FaceRow(area: real, spacing: real, gamma: real,
                             eAds: seq<real>, sAds: seq<real>, w: seq<seq<real>>)

  datatype FaceOutcome = FaceOk(row: FaceRow) | FaceBadIndex | FaceRaised(error: string) | FaceNonFinite

  /**
   * The body of the face loop for one face. The index tokens must convert
   * (ValueError) and be three (the bad-index return); HCP divides by the
   * never-read `c` lattice constant (ZeroDivisionError) and any other unknown
   * structure leaves `distance` unbound (UnboundLocalError); then the surface
   * energy must parse, `w` must not be ragged, and every kept gas must have
   * its entries (IndexError).
   */
  function FaceRowOf(f: FaceEntry, structure: string, a: real, kept: seq<nat>, sqrt: real -> real)
    : (r: FaceOutcome)
    ensures r.FaceOk? ==> |r.row.eAds| == |r.row.sAds| == |r.row.w| == |kept|
    ensures r.FaceOk? ==> (forall x :: 0 <= x < |kept| ==> |r.row.w[x]| == |kept|)
    ensures r.FaceOk? ==> r.row.area != 0.0 && a != 0.0 && (structure == "FCC" || structure == "BCC")
  {
    match PyText.MillerTokens(f.index)
    case None => FaceRaised("ValueError")
    case Some(index) =>
      if |index| != 3 then FaceBadIndex
      else if structure == "HCP" then FaceRaised("ZeroDivisionError")
      else if structure != "FCC" && structure != "BCC" then FaceRaised("UnboundLocalError")
      else (
        match FaceAreaSpacing(structure, a, index[0], index[1], index[2], sqrt)
        case None => FaceNonFinite
        case Some(geo) => (
          match PyText.ParseReal(f.gamma)
          case None => FaceRaised("ValueError")
          case Some(g) =>
            if !Rectangular(f.w) then FaceRaised("ValueError")
            else (
              match (Compact(f.eAds, kept), Compact(f.sAds, kept), CompactMatrix(f.w, kept))
              case (Some(e), Some(sa), Ok(w)) => FaceOk(FaceRow(geo.area, geo.spacing, g, e, sa, w))
              case _ => FaceRaised("IndexError"))))
  }

  /** Whether the face reaches the bond-length assignment: its index is three convertible tokens. */
  predicate ReachesBond(f: FaceEntry)
  {
    var t := PyText.MillerTokens(f.index);
    t.Some? && |t.value| == 3
  }

  /**
   * A face is accepted only with a three-token index on a cubic structure,
   * and then its spacing is the lattice constant over the index norm and its
   * rows are the kept gases' entries.
   */
  lemma FaceRowMeaning(f: FaceEntry, structure: string, a: real, kept: seq<nat>, sqrt: real -> real)
    requires FaceRowOf(f, structure, a, kept, sqrt).FaceOk?
    ensures ReachesBond(f) && (structure == "FCC" || structure == "BCC")
    ensures var t := PyText.MillerTokens(f.index).value;
      var n := sqrt(NormSquared(t[0], t[1], t[2]) as real);
      var row := FaceRowOf(f, structure, a, kept, sqrt).row;
      n != 0.0 && row.spacing == a / n &&
      Some(row.eAds) == Compact(f.eAds, kept) && Some(row.sAds) == Compact(f.sAds, kept) &&
      Ok(row.w) == CompactMatrix(f.w, kept)
  {
    var t := PyText.MillerTokens(f.index).value;
    SpacingIsLatticeOverNorm(structure, a, t[0], t[1], t[2], sqrt);
  }

  /** A face whose index tokens are not three is reported, never accepted nor raised past. */
  lemma BadIndexIsReported(f: FaceEntry, structure: string, a: real, kept: seq<nat>, sqrt: real -> real)
    requires PyText.MillerTokens(f.index).Some? && |PyText.MillerTokens(f.index).value| != 3
    ensures FaceRowOf(f, structure, a, kept, sqrt) == FaceBadIndex
  {
  }
}

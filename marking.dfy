/**
 * Classification of the cut particle's surface atoms into facets, edges and
 * corners: a first pass tags every low-coordinated atom with the faces whose
 * outermost layer it lies in, and a second pass settles the atoms carrying
 * several tags, after dropping faces that no atom was found on.
 */
module Marking {
  import opened Common

  // ------------------------------------------------------------ labels

  /** The label the first pass builds: every tag followed by one space. */
  function Label(tags: seq<string>): string
  {
    if tags == [] then "" else tags[0] + " " + Label(tags[1..])
  }

  lemma {:induction false} LabelSnoc(tags: seq<string>, t: string)
    ensures Label(tags + [t]) == Label(tags) + t + " "
  {
    if tags != [] {
      assert (tags + [t])[1..] == tags[1..] + [t];
      LabelSnoc(tags[1..], t);
    }
  }

  /** Length of the leading run of non-blank characters. */
  function WordEnd(s: string): (k: nat)
    ensures k <= |s|
    ensures forall i :: 0 <= i < k ==> !IsSpace(s[i])
    ensures k < |s| ==> IsSpace(s[k])
  {
    if s == [] || IsSpace(s[0]) then 0 else 1 + WordEnd(s[1..])
  }

  /** Python's `str.split()`: the maximal runs of non-blank characters. */
  function Words(s: string): seq<string>
    decreases |s|
  {
    if s == [] then []
    else if IsSpace(s[0]) then Words(s[1..])
    else
      var k := WordEnd(s);
      [s[..k]] + Words(s[k..])
  }

  /** A face string that survives the round trip through a label. */
  predicate Word(t: string)
  {
    t != [] && forall i :: 0 <= i < |t| ==> !IsSpace(t[i])
  }

  lemma {:induction false} WordEndOf(t: string, rest: string)
    requires forall i :: 0 <= i < |t| ==> !IsSpace(t[i])
    ensures WordEnd(t + " " + rest) == |t|
  {
    if t != [] {
      assert (t + " " + rest)[1..] == t[1..] + " " + rest;
      WordEndOf(t[1..], rest);
    }
  }

  /** Splitting a label gives back its tags, when every tag is one word. */
  lemma {:induction false} WordsOfLabel(tags: seq<string>)
    requires forall k :: 0 <= k < |tags| ==> Word(tags[k])
    ensures Words(Label(tags)) == tags
  {
    if tags != [] {
      var t, rest := tags[0], Label(tags[1..]);
      var s := t + " " + rest;
      WordEndOf(t, rest);
      assert s[..|t|] == t;
      assert s[|t|..] == " " + rest;
      assert Words(" " + rest) == Words(rest) by {
        assert (" " + rest)[1..] == rest;
      }
      WordsOfLabel(tags[1..]);
    }
  }

  /** A non-empty label ends in a blank, so it never reads as one of the fixed labels. */
  lemma LabelEndsInBlank(tags: seq<string>)
    requires tags != []
    ensures |Label(tags)| > 0 && Label(tags)[|Label(tags)| - 1] == ' '
  {
    LabelSnoc(tags[..|tags| - 1], tags[|tags| - 1]);
    assert tags[..|tags| - 1] + [tags[|tags| - 1]] == tags;
  }

  /** Element symbol used to colour an atom on a single facet. */
  function FacetColour(p: string): (c: string)
    ensures c in {"Au", "Cu", "Fe", "Rh"}
  {
    if p == "100" then "Au" else if p == "110" then "Cu" else if p == "111" then "Fe" else "Rh"
  }

  // ------------------------------------------------------------ per-face counters

  /** `v[np.argwhere(face_index == t)] += 1`: every slot holding the face string t grows by one. */
  function Bump(v: seq<int>, faceIndex: seq<string>, t: string): (r: seq<int>)
    requires |v| == |faceIndex|
    ensures |r| == |v|
  {
    seq(|v|, m requires 0 <= m < |v| => if faceIndex[m] == t then v[m] + 1 else v[m])
  }

  /** The same on a real-valued counter, by x. */
  function BumpReal(v: seq<real>, faceIndex: seq<string>, t: string, x: real): (r: seq<real>)
    requires |v| == |faceIndex|
    ensures |r| == |v|
  {
    seq(|v|, m requires 0 <= m < |v| => if faceIndex[m] == t then v[m] + x else v[m])
  }

  /** `for face in tags: v[argwhere(face_index == face)] += x`. */
  function BumpAll(v: seq<real>, faceIndex: seq<string>, tags: seq<string>, x: real): (r: seq<real>)
    requires |v| == |faceIndex|
    ensures |r| == |v|
    decreases |tags|
  {
    if tags == [] then v
    else BumpAll(BumpReal(v, faceIndex, tags[0], x), faceIndex, tags[1..], x)
  }

  /** Removal of every occurrence of t: `a[a != t]`. */
  function RemoveAll(s: seq<string>, t: string): (r: seq<string>)
    ensures |r| <= |s|
    ensures forall x :: x in r <==> x in s && x != t
  {
    if s == [] then [] else (if s[0] == t then [] else [s[0]]) + RemoveAll(s[1..], t)
  }

  /**
   * The filter of the second pass, over the faces before m in order: the tags
   * of a face whose counter is zero are removed.
   */
  function DropEmpty(tags: seq<string>, faceIndex: seq<string>, nSurfs: seq<int>, m: nat): (r: seq<string>)
    requires m <= |faceIndex| == |nSurfs|
  {
    if m == 0 then tags
    else
      var front := DropEmpty(tags, faceIndex, nSurfs, m - 1);
      if nSurfs[m - 1] == 0 then RemoveAll(front, faceIndex[m - 1]) else front
  }

  // ------------------------------------------------------------ the first pass

  /** What the classifier reads besides the atoms: the plane list and the dictionaries. */
  datatype Frame = Frame(structure: string, planes: seq<Plane>, planesDict: map<Plane, string>,
                         faceD: map<string, real>, faceIndex: seq<string>)

  /** Every plane has a face and every such face a spacing (otherwise KeyError). */
  predicate Keyed(f: Frame)
  {
    forall j :: 0 <= j < |f.planes| ==> f.planes[j] in f.planesDict && f.planesDict[f.planes[j]] in f.faceD
  }

  /** Every atom's row has one projection per plane. */
  predicate Rows(rows: seq<seq<real>>, planes: nat)
  {
    forall i :: 0 <= i < |rows| ==> |rows[i]| == planes
  }

  /** `np.max(distance, axis=0)[j]` over the first n rows. */
  function ColumnMax(rows: seq<seq<real>>, j: nat, n: nat): (r: real)
    requires 0 < n <= |rows| && forall i :: 0 <= i < n ==> j < |rows[i]|
    ensures forall i :: 0 <= i < n ==> rows[i][j] <= r
    ensures exists i :: 0 <= i < n && rows[i][j] == r
  {
    if n == 1 then rows[0][j]
    else
      var front := ColumnMax(rows, j, n - 1);
      if rows[n - 1][j] > front then rows[n - 1][j] else front
  }

  function ColumnMaxes(rows: seq<seq<real>>, planes: nat): (r: seq<real>)
    requires |rows| > 0 && Rows(rows, planes)
    ensures |r| == planes
  {
    seq(planes, j requires 0 <= j < planes => ColumnMax(rows, j, |rows|))
  }

  /** The atom lies in plane j's outermost layer: within 0.45 spacings of the furthest atom. */
  predicate OnPlane(row: seq<real>, maxD: seq<real>, f: Frame, j: nat)
    requires Keyed(f) && j < |f.planes| && |row| == |maxD| == |f.planes|
  {
    row[j] >= maxD[j] - 0.45 * f.faceD[f.planesDict[f.planes[j]]]
  }

  /** The face tags of an atom over planes before j, one per plane it lies on. */
  function Tags(row: seq<real>, maxD: seq<real>, f: Frame, j: nat): (r: seq<string>)
    requires Keyed(f) && j <= |f.planes| && |row| == |maxD| == |f.planes|
    ensures |r| <= j
    ensures forall k :: 0 <= k < |r| ==> exists q :: 0 <= q < j && r[k] == f.planesDict[f.planes[q]]
  {
    if j == 0 then []
    else Tags(row, maxD, f, j - 1) + (if OnPlane(row, maxD, f, j - 1) then [f.planesDict[f.planes[j - 1]]] else [])
  }

  /** An atom the first pass examines: CN below 10 for FCC, below 7 for BCC; none for HCP. */
  predicate Candidate(structure: string, cn: int)
  {
    (structure == "FCC" && cn < 10) || (structure == "BCC" && cn < 7)
  }

  datatype FirstState = FirstState(labels: seq<string>, colours: seq<string>, nSurfs: seq<int>, deferred: seq<nat>)

  /** The first pass over atoms before n. */
  function FirstPass(cn: seq<int>, rows: seq<seq<real>>, maxD: seq<real>, f: Frame, n: nat): (st: FirstState)
    requires Keyed(f) && n <= |cn| == |rows| && Rows(rows, |f.planes|) && |maxD| == |f.planes|
    ensures |st.labels| == |st.colours| == n && |st.nSurfs| == |f.faceIndex|
    ensures forall k :: 0 <= k < |st.deferred| ==> st.deferred[k] < n
  {
    if n == 0 then FirstState([], [], seq(|f.faceIndex|, _ => 0), [])
    else
      var st := FirstPass(cn, rows, maxD, f, n - 1);
      if !Candidate(f.structure, cn[n - 1]) then
        st.(labels := st.labels + [" bulk"], colours := st.colours + ["Co"])
      else
        var tags := Tags(rows[n - 1], maxD, f, |f.planes|);
        if |tags| == 1 then
          st.(labels := st.labels + [Label(tags)], colours := st.colours + [FacetColour(tags[0])],
              nSurfs := Bump(st.nSurfs, f.faceIndex, tags[0]))
        else if |tags| >= 2 then
          st.(labels := st.labels + [Label(tags)], colours := st.colours + ["O"], deferred := st.deferred + [n - 1])
        else
          st.(labels := st.labels + ["subsurface"], colours := st.colours + ["O"])
  }

  // ------------------------------------------------------------ the second pass

  datatype Marks = Marks(labels: seq<string>, colours: seq<string>, nSurfs: seq<int>,
                         ratioEdges: seq<real>, ratioCorners: seq<real>, nedges: int, ncorners: int)

  /** The second pass over the first k deferred atoms. */
  function SecondPass(first: FirstState, faceIndex: seq<string>, k: nat): (mk: Marks)
    requires k <= |first.deferred| && |first.labels| == |first.colours| && |first.nSurfs| == |faceIndex|
    requires forall x :: 0 <= x < |first.deferred| ==> first.deferred[x] < |first.labels|
    ensures |mk.labels| == |mk.colours| == |first.labels|
    ensures |mk.nSurfs| == |mk.ratioEdges| == |mk.ratioCorners| == |faceIndex|
  {
    if k == 0 then
      var zero := seq(|faceIndex|, _ => 0.0);
      Marks(first.labels, first.colours, first.nSurfs, zero, zero, 0, 0)
    else
      var mk := SecondPass(first, faceIndex, k - 1);
      var d := first.deferred[k - 1];
      var tags := DropEmpty(Words(mk.labels[d]), faceIndex, mk.nSurfs, |faceIndex|);
      if |tags| == 1 then
        mk.(nSurfs := Bump(mk.nSurfs, faceIndex, tags[0]), colours := mk.colours[d := FacetColour(tags[0])])
      else if |tags| == 2 then
        mk.(labels := mk.labels[d := "edge"], nedges := mk.nedges + 1,
            ratioEdges := BumpReal(BumpReal(mk.ratioEdges, faceIndex, tags[0], 0.5), faceIndex, tags[1], 0.5),
            colours := mk.colours[d := "Pt"])
      else if |tags| >= 3 then
        mk.(labels := mk.labels[d := "corner"], ncorners := mk.ncorners + 1,
            ratioCorners := BumpAll(mk.ratioCorners, faceIndex, tags, 1.0 / |tags| as real),
            colours := mk.colours[d := "Pd"])
      else
        mk.(labels := mk.labels[d := "unkonwn"])
  }

  /** The classifier's whole result for the kept atoms' CNs and projection rows. */
  function Classified(cn: seq<int>, rows: seq<seq<real>>, f: Frame): (mk: Marks)
    requires Keyed(f) && |cn| == |rows| > 0 && Rows(rows, |f.planes|)
    ensures |mk.labels| == |mk.colours| == |cn|
  {
    var first := FirstPass(cn, rows, ColumnMaxes(rows, |f.planes|), f, |cn|);
    SecondPass(first, f.faceIndex, |first.deferred|)
  }

  // ------------------------------------------------------------ the loops

  /** The tag loop over the planes for one atom. */
  method TagAtom(row: seq<real>, maxD: seq<real>, f: Frame) returns (tags: seq<string>, text: string)
    requires Keyed(f) && |row| == |maxD| == |f.planes|
    ensures tags == Tags(row, maxD, f, |f.planes|) && text == Label(tags)
  {
    tags, text := [], "";
    for j := 0 to |f.planes|
      invariant tags == Tags(row, maxD, f, j) && text == Label(tags)
    {
      var face := f.planesDict[f.planes[j]];
      if row[j] >= maxD[j] - 0.45 * f.faceD[face] {
        LabelSnoc(tags, face);
        tags := tags + [face];
        text := text + face + " ";
      }
    }
  }

  /** The removal loop over the faces for one deferred atom. */
  method DropEmptyFaces(tags: seq<string>, faceIndex: seq<string>, nSurfs: seq<int>) returns (kept: seq<string>)
    requires |faceIndex| == |nSurfs|
    ensures kept == DropEmpty(tags, faceIndex, nSurfs, |faceIndex|)
  {
    kept := tags;
    for m := 0 to |faceIndex|
      invariant kept == DropEmpty(tags, faceIndex, nSurfs, m)
    {
      if nSurfs[m] == 0 {
        kept := RemoveAll(kept, faceIndex[m]);
      }
    }
  }

  /** The corner loop: every remaining tag adds `1/l` to its face. */
  method ShareCorner(v: seq<real>, faceIndex: seq<string>, tags: seq<string>, x: real) returns (r: seq<real>)
    requires |v| == |faceIndex|
    ensures r == BumpAll(v, faceIndex, tags, x)
  {
    r := v;
    for i := 0 to |tags|
      invariant |r| == |v| && BumpAll(r, faceIndex, tags[i..], x) == BumpAll(v, faceIndex, tags, x)
    {
      assert tags[i..][1..] == tags[i + 1..];
      r := BumpReal(r, faceIndex, tags[i], x);
    }
  }

  /** `mark_atoms`: the two passes over the kept atoms. */
  method MarkAtoms(cn: seq<int>, rows: seq<seq<real>>, f: Frame) returns (mk: Marks)
    requires Keyed(f) && |cn| == |rows| > 0 && Rows(rows, |f.planes|)
    ensures mk == Classified(cn, rows, f)
  {
    var maxD := ColumnMaxes(rows, |f.planes|);
    var first := FirstLoop(cn, rows, maxD, f);
    mk := SecondLoop(first, f.faceIndex);
  }

  /** The first loop of `mark_atoms`: tags every candidate atom, settles single-face atoms, defers the rest. */
  method FirstLoop(cn: seq<int>, rows: seq<seq<real>>, maxD: seq<real>, f: Frame) returns (first: FirstState)
    requires Keyed(f) && |cn| == |rows| && Rows(rows, |f.planes|) && |maxD| == |f.planes|
    ensures first == FirstPass(cn, rows, maxD, f, |cn|)
  {
    var labels: seq<string> := [];
    var colours: seq<string> := [];
    var nSurfs: seq<int> := seq(|f.faceIndex|, _ => 0);
    var deferred: seq<nat> := [];
    for n := 0 to |cn|
      invariant FirstState(labels, colours, nSurfs, deferred) == FirstPass(cn, rows, maxD, f, n)
    {
      if Candidate(f.structure, cn[n]) {
        var tags, text := TagAtom(rows[n], maxD, f);
        if |tags| == 1 {
          labels := labels + [text];
          colours := colours + [FacetColour(tags[0])];
          nSurfs := Bump(nSurfs, f.faceIndex, tags[0]);
        } else if |tags| >= 2 {
          labels := labels + [text];
          colours := colours + ["O"];
          deferred := deferred + [n];
        } else {
          labels := labels + ["subsurface"];
          colours := colours + ["O"];
        }
      } else {
        labels := labels + [" bulk"];
        colours := colours + ["Co"];
      }
    }
    first := FirstState(labels, colours, nSurfs, deferred);
  }

  /** The second loop of `mark_atoms`: the deferred atoms become facets, edges or corners. */
  method SecondLoop(first: FirstState, faceIndex: seq<string>) returns (mk: Marks)
    requires |first.labels| == |first.colours| && |first.nSurfs| == |faceIndex|
    requires forall x :: 0 <= x < |first.deferred| ==> first.deferred[x] < |first.labels|
    ensures mk == SecondPass(first, faceIndex, |first.deferred|)
  {
    var zero := seq(|faceIndex|, _ => 0.0);
    mk := Marks(first.labels, first.colours, first.nSurfs, zero, zero, 0, 0);
    for k := 0 to |first.deferred|
      invariant mk == SecondPass(first, faceIndex, k)
    {
      var d := first.deferred[k];
      var tags := DropEmptyFaces(Words(mk.labels[d]), faceIndex, mk.nSurfs);
      var l := |tags|;
      if l == 1 {
        mk := mk.(nSurfs := Bump(mk.nSurfs, faceIndex, tags[0]), colours := mk.colours[d := FacetColour(tags[0])]);
      } else if l == 2 {
        var edges := BumpReal(BumpReal(mk.ratioEdges, faceIndex, tags[0], 0.5), faceIndex, tags[1], 0.5);
        mk := mk.(labels := mk.labels[d := "edge"], nedges := mk.nedges + 1, ratioEdges := edges,
                  colours := mk.colours[d := "Pt"]);
      } else if l >= 3 {
        var corners := ShareCorner(mk.ratioCorners, faceIndex, tags, 1.0 / l as real);
        mk := mk.(labels := mk.labels[d := "corner"], ncorners := mk.ncorners + 1, ratioCorners := corners,
                  colours := mk.colours[d := "Pd"]);
      } else {
        mk := mk.(labels := mk.labels[d := "unkonwn"]);
      }
    }
  }

  // ------------------------------------------------------------ the filter, declaratively

  /** Tag t survives the faces before m: no face string equal to t has a zero counter. */
  predicate SurvivesUpTo(t: string, faceIndex: seq<string>, nSurfs: seq<int>, m: nat)
    requires m <= |faceIndex| == |nSurfs|
  {
    forall j :: 0 <= j < m && faceIndex[j] == t ==> nSurfs[j] != 0
  }

  /** The surviving tags, in their original order. */
  function KeepUpTo(tags: seq<string>, faceIndex: seq<string>, nSurfs: seq<int>, m: nat): seq<string>
    requires m <= |faceIndex| == |nSurfs|
  {
    if tags == [] then []
    else (if SurvivesUpTo(tags[0], faceIndex, nSurfs, m) then [tags[0]] else []) +
         KeepUpTo(tags[1..], faceIndex, nSurfs, m)
  }

  lemma {:induction false} KeepStep(tags: seq<string>, faceIndex: seq<string>, nSurfs: seq<int>, m: nat)
    requires m < |faceIndex| == |nSurfs|
    ensures nSurfs[m] == 0 ==>
      RemoveAll(KeepUpTo(tags, faceIndex, nSurfs, m), faceIndex[m]) == KeepUpTo(tags, faceIndex, nSurfs, m + 1)
    ensures nSurfs[m] != 0 ==> KeepUpTo(tags, faceIndex, nSurfs, m) == KeepUpTo(tags, faceIndex, nSurfs, m + 1)
  {
    if tags != [] {
      KeepStep(tags[1..], faceIndex, nSurfs, m);
      var t := tags[0];
      assert SurvivesUpTo(t, faceIndex, nSurfs, m + 1) <==>
        SurvivesUpTo(t, faceIndex, nSurfs, m) && (faceIndex[m] == t ==> nSurfs[m] != 0);
      var front := if SurvivesUpTo(t, faceIndex, nSurfs, m) then [t] else [];
      var rest := KeepUpTo(tags[1..], faceIndex, nSurfs, m);
      assert KeepUpTo(tags, faceIndex, nSurfs, m) == front + rest;
      if nSurfs[m] == 0 {
        RemoveAllAppend(front, rest, faceIndex[m]);
      }
    }
  }

  lemma {:induction false} RemoveAllAppend(s: seq<string>, u: seq<string>, t: string)
    ensures RemoveAll(s + u, t) == RemoveAll(s, t) + RemoveAll(u, t)
  {
    if s != [] {
      assert (s + u)[1..] == s[1..] + u;
      RemoveAllAppend(s[1..], u, t);
    } else {
      assert s + u == u;
    }
  }

  /**
   * The removal loop keeps exactly the tags no face with a zero counter
   * carries, in order: the loop over faces and a one-pass filter agree.
   */
  lemma {:induction false} DropEmptyIsFilter(tags: seq<string>, faceIndex: seq<string>, nSurfs: seq<int>, m: nat)
    requires m <= |faceIndex| == |nSurfs|
    ensures DropEmpty(tags, faceIndex, nSurfs, m) == KeepUpTo(tags, faceIndex, nSurfs, m)
  {
    if m == 0 {
      KeepAll(tags, faceIndex, nSurfs);
    } else {
      DropEmptyIsFilter(tags, faceIndex, nSurfs, m - 1);
      KeepStep(tags, faceIndex, nSurfs, m - 1);
    }
  }

  lemma {:induction false} KeepAll(tags: seq<string>, faceIndex: seq<string>, nSurfs: seq<int>)
    requires |faceIndex| == |nSurfs|
    ensures KeepUpTo(tags, faceIndex, nSurfs, 0) == tags
  {
    if tags != [] {
      KeepAll(tags[1..], faceIndex, nSurfs);
    }
  }

  lemma {:induction false} KeepSubset(tags: seq<string>, faceIndex: seq<string>, nSurfs: seq<int>, m: nat)
    requires m <= |faceIndex| == |nSurfs|
    ensures forall x :: x in KeepUpTo(tags, faceIndex, nSurfs, m) ==> x in tags
  {
    if tags != [] {
      KeepSubset(tags[1..], faceIndex, nSurfs, m);
    }
  }

  // ------------------------------------------------------------ sums of the counters

  /** Number of slots holding the face string t. */
  function Occurrences(faceIndex: seq<string>, t: string): nat
  {
    if faceIndex == [] then 0
    else Occurrences(faceIndex[..|faceIndex| - 1], t) + (if faceIndex[|faceIndex| - 1] == t then 1 else 0)
  }

  predicate Distinct(faceIndex: seq<string>)
  {
    forall i, j :: 0 <= i < j < |faceIndex| ==> faceIndex[i] != faceIndex[j]
  }

  lemma {:induction false} OccursOnce(faceIndex: seq<string>, t: string)
    requires Distinct(faceIndex) && t in faceIndex
    ensures Occurrences(faceIndex, t) == 1
  {
    var front := faceIndex[..|faceIndex| - 1];
    if faceIndex[|faceIndex| - 1] == t {
      NotOccurring(front, t);
    } else {
      assert t in front;
      OccursOnce(front, t);
    }
  }

  lemma {:induction false} NotOccurring(faceIndex: seq<string>, t: string)
    requires t !in faceIndex
    ensures Occurrences(faceIndex, t) == 0
  {
    if faceIndex != [] {
      NotOccurring(faceIndex[..|faceIndex| - 1], t);
    }
  }

  lemma {:induction false} SumIntBump(v: seq<int>, faceIndex: seq<string>, t: string)
    requires |v| == |faceIndex|
    ensures SumInt(Bump(v, faceIndex, t)) == SumInt(v) + Occurrences(faceIndex, t)
  {
    if v != [] {
      var n := |v| - 1;
      assert Bump(v, faceIndex, t)[..n] == Bump(v[..n], faceIndex[..n], t);
      SumIntBump(v[..n], faceIndex[..n], t);
    }
  }

  lemma {:induction false} SumRealBump(v: seq<real>, faceIndex: seq<string>, t: string, x: real)
    requires |v| == |faceIndex|
    ensures SumReal(BumpReal(v, faceIndex, t, x)) == SumReal(v) + x * Occurrences(faceIndex, t) as real
  {
    if v != [] {
      var n := |v| - 1;
      assert BumpReal(v, faceIndex, t, x)[..n] == BumpReal(v[..n], faceIndex[..n], t, x);
      SumRealBump(v[..n], faceIndex[..n], t, x);
    }
  }

  /** With distinct face strings, a tag of a known face raises the total by exactly one share. */
  lemma {:induction false} SumRealBumpAll(v: seq<real>, faceIndex: seq<string>, tags: seq<string>, x: real)
    requires |v| == |faceIndex| && Distinct(faceIndex)
    requires forall k :: 0 <= k < |tags| ==> tags[k] in faceIndex
    ensures SumReal(BumpAll(v, faceIndex, tags, x)) == SumReal(v) + x * |tags| as real
    decreases |tags|
  {
    if tags != [] {
      OccursOnce(faceIndex, tags[0]);
      SumRealBump(v, faceIndex, tags[0], x);
      SumRealBumpAll(BumpReal(v, faceIndex, tags[0], x), faceIndex, tags[1..], x);
    }
  }

  /** A corner shared equally among its faces adds one in all. */
  lemma CornerSum(v: seq<real>, faceIndex: seq<string>, tags: seq<string>)
    requires |v| == |faceIndex| && Distinct(faceIndex) && |tags| > 0
    requires forall k :: 0 <= k < |tags| ==> tags[k] in faceIndex
    ensures SumReal(BumpAll(v, faceIndex, tags, 1.0 / |tags| as real)) == SumReal(v) + 1.0
  {
    SumRealBumpAll(v, faceIndex, tags, 1.0 / |tags| as real);
    CornerShares(|tags|);
  }

  lemma CornerShares(l: nat)
    requires l > 0
    ensures (1.0 / l as real) * l as real == 1.0
  {
  }

  lemma {:induction false} SumRealZero(n: nat)
    ensures SumReal(seq(n, _ => 0.0)) == 0.0
  {
    if n > 0 {
      assert seq(n, _ => 0.0)[..n - 1] == seq(n - 1, _ => 0.0);
      SumRealZero(n - 1);
    }
  }

  lemma {:induction false} SumIntZero(n: nat)
    ensures SumInt(seq(n, _ => 0)) == 0
  {
    if n > 0 {
      assert seq(n, _ => 0)[..n - 1] == seq(n - 1, _ => 0);
      SumIntZero(n - 1);
    }
  }

  // ------------------------------------------------------------ counting the classes

  /** Labels the summary counts as subsurface: no facet tag, or no tag left after the filter. */
  predicate IsSub(text: string)
  {
    text == "subsurface" || text == "unkonwn"
  }

  function CountSub(labels: seq<string>): nat
  {
    if labels == [] then 0
    else CountSub(labels[..|labels| - 1]) + (if IsSub(labels[|labels| - 1]) then 1 else 0)
  }

  lemma {:induction false} CountSubUpdate(labels: seq<string>, d: nat, v: string)
    requires d < |labels|
    ensures CountSub(labels[d := v]) + (if IsSub(labels[d]) then 1 else 0) ==
            CountSub(labels) + (if IsSub(v) then 1 else 0)
  {
    var n := |labels| - 1;
    if d < n {
      assert labels[d := v][..n] == labels[..n][d := v];
      CountSubUpdate(labels[..n], d, v);
    } else {
      assert labels[d := v][..n] == labels[..n];
    }
  }

  /** Atoms before n the first pass examines. */
  function Candidates(structure: string, cn: seq<int>, n: nat): nat
    requires n <= |cn|
  {
    if n == 0 then 0 else Candidates(structure, cn, n - 1) + (if Candidate(structure, cn[n - 1]) then 1 else 0)
  }

  /** Face strings a classifier can meet: distinct words, and every plane's face among them. */
  predicate WellFaced(f: Frame)
  {
    Keyed(f) && Distinct(f.faceIndex) &&
    (forall m :: 0 <= m < |f.faceIndex| ==> Word(f.faceIndex[m])) &&
    (forall j :: 0 <= j < |f.planes| ==> f.planesDict[f.planes[j]] in f.faceIndex)
  }

  predicate Increasing(s: seq<nat>)
  {
    forall i, j :: 0 <= i < j < |s| ==> s[i] < s[j]
  }

  /** The facts the second pass needs about a deferred atom's label. */
  predicate DeferredLabel(text: string, faceIndex: seq<string>)
  {
    !IsSub(text) && text != " bulk" &&
    forall k :: 0 <= k < |Words(text)| ==> Words(text)[k] in faceIndex
  }

  lemma TagLabel(tags: seq<string>, f: Frame)
    requires WellFaced(f) && tags != []
    requires forall k :: 0 <= k < |tags| ==> tags[k] in f.faceIndex
    ensures DeferredLabel(Label(tags), f.faceIndex)
  {
    var text := Label(tags);
    LabelEndsInBlank(tags);
    assert text != "subsurface" && text != "unkonwn" && text != " bulk" by {
      assert "subsurface"[9] == 'e' && "unkonwn"[6] == 'n' && " bulk"[4] == 'k';
    }
    forall k | 0 <= k < |tags|
      ensures Word(tags[k])
    {
      var m :| 0 <= m < |f.faceIndex| && f.faceIndex[m] == tags[k];
    }
    WordsOfLabel(tags);
  }

  lemma TagsOfFaces(row: seq<real>, maxD: seq<real>, f: Frame)
    requires WellFaced(f) && |row| == |maxD| == |f.planes|
    ensures forall k :: 0 <= k < |Tags(row, maxD, f, |f.planes|)| ==> Tags(row, maxD, f, |f.planes|)[k] in f.faceIndex
  {
  }

  /**
   * The first pass keeps the books: single-facet atoms are counted once in
   * the face counters, deferred atoms are listed, and the remaining
   * candidates are labelled subsurface.
   */
  lemma {:induction false} FirstPassCounts(cn: seq<int>, rows: seq<seq<real>>, maxD: seq<real>, f: Frame, n: nat)
    requires WellFaced(f) && n <= |cn| == |rows| && Rows(rows, |f.planes|) && |maxD| == |f.planes|
    ensures var st := FirstPass(cn, rows, maxD, f, n);
      SumInt(st.nSurfs) + |st.deferred| + CountSub(st.labels) == Candidates(f.structure, cn, n)
  {
    if n == 0 {
      SumIntZero(|f.faceIndex|);
    } else {
      FirstPassCounts(cn, rows, maxD, f, n - 1);
      var st := FirstPass(cn, rows, maxD, f, n - 1);
      var st' := FirstPass(cn, rows, maxD, f, n);
      assert st'.labels[..n - 1] == st.labels;
      if Candidate(f.structure, cn[n - 1]) {
        var tags := Tags(rows[n - 1], maxD, f, |f.planes|);
        TagsOfFaces(rows[n - 1], maxD, f);
        if |tags| >= 1 {
          TagLabel(tags, f);
          assert !IsSub(Label(tags));
        }
        if |tags| == 1 {
          OccursOnce(f.faceIndex, tags[0]);
          SumIntBump(st.nSurfs, f.faceIndex, tags[0]);
        }
      }
    }
  }

  /** Deferred atoms are listed once each, in order, and carry a label of known faces. */
  lemma {:induction false} FirstPassDeferred(cn: seq<int>, rows: seq<seq<real>>, maxD: seq<real>, f: Frame, n: nat)
    requires WellFaced(f) && n <= |cn| == |rows| && Rows(rows, |f.planes|) && |maxD| == |f.planes|
    ensures var st := FirstPass(cn, rows, maxD, f, n);
      Increasing(st.deferred) &&
      forall x :: 0 <= x < |st.deferred| ==> DeferredLabel(st.labels[st.deferred[x]], f.faceIndex)
  {
    if n > 0 {
      FirstPassDeferred(cn, rows, maxD, f, n - 1);
      FirstPassLabel(cn, rows, maxD, f, n);
      var st := FirstPass(cn, rows, maxD, f, n - 1);
      var st' := FirstPass(cn, rows, maxD, f, n);
      var tags := Tags(rows[n - 1], maxD, f, |f.planes|);
      forall x | 0 <= x < |st'.deferred|
        ensures DeferredLabel(st'.labels[st'.deferred[x]], f.faceIndex)
      {
        if x < |st.deferred| {
          assert st'.deferred[x] == st.deferred[x] < n - 1;
          assert st'.labels[st.deferred[x]] == st.labels[st.deferred[x]];
        } else {
          assert st'.deferred[x] == n - 1 && st'.labels[n - 1] == Label(tags);
          TagsOfFaces(rows[n - 1], maxD, f);
          TagLabel(tags, f);
        }
      }
    }
  }

  /** The label the first pass gives an atom with CN c lying on the faces `tags`. */
  function FirstLabel(structure: string, c: int, tags: seq<string>): string
  {
    if !Candidate(structure, c) then " bulk" else if |tags| >= 1 then Label(tags) else "subsurface"
  }

  lemma FirstPassLabel(cn: seq<int>, rows: seq<seq<real>>, maxD: seq<real>, f: Frame, n: nat)
    requires Keyed(f) && 0 < n <= |cn| == |rows| && Rows(rows, |f.planes|) && |maxD| == |f.planes|
    ensures FirstPass(cn, rows, maxD, f, n).labels ==
      FirstPass(cn, rows, maxD, f, n - 1).labels + [FirstLabel(f.structure, cn[n - 1], Tags(rows[n - 1], maxD, f, |f.planes|))]
    ensures FirstPass(cn, rows, maxD, f, n).deferred ==
      FirstPass(cn, rows, maxD, f, n - 1).deferred +
      (if Candidate(f.structure, cn[n - 1]) && |Tags(rows[n - 1], maxD, f, |f.planes|)| >= 2 then [n - 1] else [])
  {
  }

  /** Exactly the atoms that are not candidates leave the first pass labelled bulk. */
  lemma {:induction false} FirstPassBulk(cn: seq<int>, rows: seq<seq<real>>, maxD: seq<real>, f: Frame, n: nat)
    requires WellFaced(f) && n <= |cn| == |rows| && Rows(rows, |f.planes|) && |maxD| == |f.planes|
    ensures var st := FirstPass(cn, rows, maxD, f, n);
      forall i :: 0 <= i < n ==> (st.labels[i] == " bulk" <==> !Candidate(f.structure, cn[i]))
  {
    if n > 0 {
      FirstPassBulk(cn, rows, maxD, f, n - 1);
      FirstPassLabel(cn, rows, maxD, f, n);
      var labels := FirstPass(cn, rows, maxD, f, n - 1).labels;
      var labels' := FirstPass(cn, rows, maxD, f, n).labels;
      var tags := Tags(rows[n - 1], maxD, f, |f.planes|);
      if Candidate(f.structure, cn[n - 1]) {
        if |tags| >= 1 {
          TagsOfFaces(rows[n - 1], maxD, f);
          TagLabel(tags, f);
        } else {
          assert "subsurface" != " bulk";
        }
      }
      forall i | 0 <= i < n
        ensures labels'[i] == " bulk" <==> !Candidate(f.structure, cn[i])
      {
        if i < n - 1 {
          assert labels'[i] == labels[i];
        }
      }
    }
  }

  /** The premises the second pass needs from the first. */
  predicate FirstPassed(first: FirstState, faceIndex: seq<string>)
  {
    |first.labels| == |first.colours| && |first.nSurfs| == |faceIndex| &&
    (forall x :: 0 <= x < |first.deferred| ==> first.deferred[x] < |first.labels|) &&
    Distinct(faceIndex) && Increasing(first.deferred) &&
    forall x :: 0 <= x < |first.deferred| ==> DeferredLabel(first.labels[first.deferred[x]], faceIndex)
  }

  /**
   * The second pass only relabels the atom it settles, never as bulk, so a
   * deferred atom still has its tag label when its turn comes.
   */
  lemma {:induction false} SecondPassLabels(first: FirstState, faceIndex: seq<string>, k: nat)
    requires k <= |first.deferred| && FirstPassed(first, faceIndex)
    ensures var mk := SecondPass(first, faceIndex, k);
      (forall x :: k <= x < |first.deferred| ==> mk.labels[first.deferred[x]] == first.labels[first.deferred[x]]) &&
      (forall i :: 0 <= i < |first.labels| ==> (mk.labels[i] == " bulk" <==> first.labels[i] == " bulk"))
  {
    if k > 0 {
      SecondPassLabels(first, faceIndex, k - 1);
      assert "edge" != " bulk" && "corner" != " bulk" && "unkonwn" != " bulk";
    }
  }

  /** The tags a deferred atom keeps after the filter all name known faces. */
  lemma SettledTags(first: FirstState, faceIndex: seq<string>, k: nat)
    requires 0 < k <= |first.deferred| && FirstPassed(first, faceIndex)
    ensures var mk := SecondPass(first, faceIndex, k - 1);
      var d := first.deferred[k - 1];
      var tags := DropEmpty(Words(mk.labels[d]), faceIndex, mk.nSurfs, |faceIndex|);
      mk.labels[d] == first.labels[d] && forall t :: t in tags ==> t in faceIndex
  {
    SecondPassLabels(first, faceIndex, k - 1);
    var mk := SecondPass(first, faceIndex, k - 1);
    var d := first.deferred[k - 1];
    var words := Words(mk.labels[d]);
    assert DeferredLabel(first.labels[d], faceIndex);
    DropEmptyIsFilter(words, faceIndex, mk.nSurfs, |faceIndex|);
    KeepSubset(words, faceIndex, mk.nSurfs, |faceIndex|);
  }

  /** Facet counters, edges, corners and atoms labelled subsurface or unknown, together. */
  function Tally(mk: Marks): int
  {
    SumInt(mk.nSurfs) + mk.nedges + mk.ncorners + CountSub(mk.labels)
  }

  /**
   * Each step of the second pass moves one deferred atom into exactly one of
   * facet, edge, corner or unknown.
   */
  lemma TallyStep(first: FirstState, faceIndex: seq<string>, k: nat)
    requires 0 < k <= |first.deferred| && FirstPassed(first, faceIndex)
    ensures Tally(SecondPass(first, faceIndex, k)) == Tally(SecondPass(first, faceIndex, k - 1)) + 1
  {
    SettledTags(first, faceIndex, k);
    var mk := SecondPass(first, faceIndex, k - 1);
    var d := first.deferred[k - 1];
    var tags := DropEmpty(Words(mk.labels[d]), faceIndex, mk.nSurfs, |faceIndex|);
    var mk' := SecondPass(first, faceIndex, k);
    assert !IsSub(mk.labels[d]);
    if |tags| == 1 {
      assert mk'.labels == mk.labels && mk'.nedges == mk.nedges && mk'.ncorners == mk.ncorners;
      assert mk'.nSurfs == Bump(mk.nSurfs, faceIndex, tags[0]);
      OccursOnce(faceIndex, tags[0]);
      SumIntBump(mk.nSurfs, faceIndex, tags[0]);
    } else if |tags| == 2 {
      assert mk'.nSurfs == mk.nSurfs && mk'.nedges == mk.nedges + 1 && mk'.ncorners == mk.ncorners;
      assert mk'.labels == mk.labels[d := "edge"];
      CountSubUpdate(mk.labels, d, "edge");
    } else if |tags| >= 3 {
      assert mk'.nSurfs == mk.nSurfs && mk'.nedges == mk.nedges && mk'.ncorners == mk.ncorners + 1;
      assert mk'.labels == mk.labels[d := "corner"];
      CountSubUpdate(mk.labels, d, "corner");
    } else {
      assert mk'.nSurfs == mk.nSurfs && mk'.nedges == mk.nedges && mk'.ncorners == mk.ncorners;
      assert mk'.labels == mk.labels[d := "unkonwn"];
      CountSubUpdate(mk.labels, d, "unkonwn");
    }
  }

  /** Every deferred atom the second pass has reached is settled exactly once. */
  lemma {:induction false} SecondPassCounts(first: FirstState, faceIndex: seq<string>, k: nat)
    requires k <= |first.deferred| && FirstPassed(first, faceIndex)
    ensures var mk := SecondPass(first, faceIndex, k);
      SumInt(mk.nSurfs) + mk.nedges + mk.ncorners + (|first.deferred| - k) + CountSub(mk.labels) ==
        SumInt(first.nSurfs) + |first.deferred| + CountSub(first.labels)
  {
    if k > 0 {
      SecondPassCounts(first, faceIndex, k - 1);
      TallyStep(first, faceIndex, k);
    }
  }

  /** Edge shares add up to the edge count. */
  lemma {:induction false} SecondPassEdgeRatios(first: FirstState, faceIndex: seq<string>, k: nat)
    requires k <= |first.deferred| && FirstPassed(first, faceIndex)
    ensures var mk := SecondPass(first, faceIndex, k); SumReal(mk.ratioEdges) == mk.nedges as real
  {
    if k == 0 {
      SumRealZero(|faceIndex|);
    } else {
      SecondPassEdgeRatios(first, faceIndex, k - 1);
      SettledTags(first, faceIndex, k);
      var mk := SecondPass(first, faceIndex, k - 1);
      var mk' := SecondPass(first, faceIndex, k);
      var d := first.deferred[k - 1];
      var tags := DropEmpty(Words(mk.labels[d]), faceIndex, mk.nSurfs, |faceIndex|);
      if |tags| == 2 {
        var once := BumpReal(mk.ratioEdges, faceIndex, tags[0], 0.5);
        assert mk'.ratioEdges == BumpReal(once, faceIndex, tags[1], 0.5) && mk'.nedges == mk.nedges + 1;
        OccursOnce(faceIndex, tags[0]);
        OccursOnce(faceIndex, tags[1]);
        SumRealBump(mk.ratioEdges, faceIndex, tags[0], 0.5);
        SumRealBump(once, faceIndex, tags[1], 0.5);
      } else {
        assert mk'.ratioEdges == mk.ratioEdges && mk'.nedges == mk.nedges;
      }
    }
  }

  /** One step of the second pass, as the corner counters see it. */
  lemma CornerStep(first: FirstState, faceIndex: seq<string>, k: nat)
    requires 0 < k <= |first.deferred| && FirstPassed(first, faceIndex)
    ensures var mk := SecondPass(first, faceIndex, k - 1);
      var mk' := SecondPass(first, faceIndex, k);
      var tags := DropEmpty(Words(mk.labels[first.deferred[k - 1]]), faceIndex, mk.nSurfs, |faceIndex|);
      if |tags| >= 3 then
        mk'.ratioCorners == BumpAll(mk.ratioCorners, faceIndex, tags, 1.0 / |tags| as real) && mk'.ncorners == mk.ncorners + 1
      else
        mk'.ratioCorners == mk.ratioCorners && mk'.ncorners == mk.ncorners
  {
  }

  /** Corner shares add up to the corner count. */
  lemma {:induction false} SecondPassCornerRatios(first: FirstState, faceIndex: seq<string>, k: nat)
    requires k <= |first.deferred| && FirstPassed(first, faceIndex)
    ensures var mk := SecondPass(first, faceIndex, k); SumReal(mk.ratioCorners) == mk.ncorners as real
  {
    if k == 0 {
      SumRealZero(|faceIndex|);
    } else {
      SecondPassCornerRatios(first, faceIndex, k - 1);
      SettledTags(first, faceIndex, k);
      var mk := SecondPass(first, faceIndex, k - 1);
      CornerStep(first, faceIndex, k);
      var tags := DropEmpty(Words(mk.labels[first.deferred[k - 1]]), faceIndex, mk.nSurfs, |faceIndex|);
      if |tags| >= 3 {
        CornerSum(mk.ratioCorners, faceIndex, tags);
      }
    }
  }

  /** The classifier is the second pass over the first pass's result, and the first pass leaves what the second needs. */
  lemma Passes(cn: seq<int>, rows: seq<seq<real>>, f: Frame)
    requires WellFaced(f) && |cn| == |rows| > 0 && Rows(rows, |f.planes|)
    ensures var first := FirstPass(cn, rows, ColumnMaxes(rows, |f.planes|), f, |cn|);
      FirstPassed(first, f.faceIndex) && Classified(cn, rows, f) == SecondPass(first, f.faceIndex, |first.deferred|)
  {
    var maxD := ColumnMaxes(rows, |f.planes|);
    FirstPassDeferred(cn, rows, maxD, f, |cn|);
  }

  /**
   * The summary's subsurface number, candidates minus facet counters minus
   * edges minus corners, is the number of atoms labelled subsurface or
   * unknown.
   */
  lemma SubsurfaceCount(cn: seq<int>, rows: seq<seq<real>>, f: Frame)
    requires WellFaced(f) && |cn| == |rows| > 0 && Rows(rows, |f.planes|)
    ensures var mk := Classified(cn, rows, f);
      Candidates(f.structure, cn, |cn|) - SumInt(mk.nSurfs) - mk.nedges - mk.ncorners == CountSub(mk.labels)
  {
    var maxD := ColumnMaxes(rows, |f.planes|);
    var first := FirstPass(cn, rows, maxD, f, |cn|);
    Passes(cn, rows, f);
    FirstPassCounts(cn, rows, maxD, f, |cn|);
    SecondPassCounts(first, f.faceIndex, |first.deferred|);
  }

  /** The edge and corner shares sum to the edge and corner counts. */
  lemma ShareSums(cn: seq<int>, rows: seq<seq<real>>, f: Frame)
    requires WellFaced(f) && |cn| == |rows| > 0 && Rows(rows, |f.planes|)
    ensures var mk := Classified(cn, rows, f);
      SumReal(mk.ratioEdges) == mk.nedges as real && SumReal(mk.ratioCorners) == mk.ncorners as real
  {
    var first := FirstPass(cn, rows, ColumnMaxes(rows, |f.planes|), f, |cn|);
    Passes(cn, rows, f);
    SecondPassEdgeRatios(first, f.faceIndex, |first.deferred|);
    SecondPassCornerRatios(first, f.faceIndex, |first.deferred|);
  }

  /** Atoms labelled bulk are exactly the non-candidates. */
  lemma BulkExactly(cn: seq<int>, rows: seq<seq<real>>, f: Frame)
    requires WellFaced(f) && |cn| == |rows| > 0 && Rows(rows, |f.planes|)
    ensures var mk := Classified(cn, rows, f);
      forall i :: 0 <= i < |cn| ==> (mk.labels[i] == " bulk" <==> !Candidate(f.structure, cn[i]))
  {
    var maxD := ColumnMaxes(rows, |f.planes|);
    var first := FirstPass(cn, rows, maxD, f, |cn|);
    Passes(cn, rows, f);
    FirstPassBulk(cn, rows, maxD, f, |cn|);
    SecondPassLabels(first, f.faceIndex, |first.deferred|);
  }
}

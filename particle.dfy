/**
 * The particle the viewer draws: per-atom elements, positions and the site
 * labels `mark_atoms` produces, with one colour row per atom chosen from the
 * element table or from the site-type table.
 */
module Particle {
  import opened Common
  import PyText
  import Marking

  type Colour = (real, real, real)

  const EleColours: map<string, Colour> := map[
    "H" := (1.00, 1.00, 1.00), "He" := (0.80, 0.80, 0.80), "Li" := (0.851, 1.00, 1.00),
    "Be" := (0.761, 1.0, 1.00), "B" := (1.00, 0.71, 0.71), "C" := (0.565, 0.565, 0.565),
    "N" := (0.188, 0.314, 0.973), "O" := (1.00, 0.051, 0.051), "F" := (0.565, 0.878, 0.314),
    "Na" := (0.671, 0.361, 0.949), "Mg" := (0.541, 1.00, 0.00), "Al" := (0.749, 0.651, 0.651),
    "Si" := (0.941, 0.784, 0.627), "P" := (1.00, 0.502, 0.00), "S" := (1.00, 1.00, 0.188),
    "Fe" := (0.878, 0.400, 0.200), "Co" := (0.242, 0.242, 0.242), "Ni" := (0.314, 0.816, 0.314),
    "Cu" := (0.784, 0.502, 0.200), "Zn" := (0.490, 0.502, 0.690), "Pd" := (0.000, 0.412, 0.522),
    "Ag" := (0.753, 0.753, 0.753), "Ce" := (1.00, 1.00, 0.78), "Pt" := (0.816, 0.816, 0.878),
    "Au" := (0.996, 0.698, 0.2196)]

  const TypeColours: map<string, Colour> := map[
    "100" := (0.557, 0.714, 0.611), "110" := (0.851, 0.310, 0.200), "111" := (0.565, 0.745, 0.878),
    "edge" := (0.816, 0.816, 0.878), "corner" := (0.933, 0.749, 0.427),
    "subsurface" := (0.008, 0.188, 0.200), "bulk" := (0.008, 0.188, 0.200)]

  const EleDefault: Colour := (1.00, 0.08, 0.576)
  const TypeDefault: Colour := (0.816, 0.816, 0.878)

  /** `get_ele_color`: the table entry, or the default pink. */
  function EleColour(e: string): Colour
  {
    if e in EleColours then EleColours[e] else EleDefault
  }

  /** `get_type_color`: the table entry, or the default grey. */
  function TypeColour(t: string): Colour
  {
    if t in TypeColours then TypeColours[t] else TypeDefault
  }

  /** Every element gets a colour, and the default is none of the table's. */
  lemma EleColourTotal(e: string)
    ensures EleColour(e) == EleDefault <==> e !in EleColours
  {
  }

  /** An unknown site label is drawn in the edge colour. */
  lemma TypeDefaultIsEdge(t: string)
    ensures t !in TypeColours ==> TypeColour(t) == TypeColour("edge")
    ensures TypeColour(t) == TypeColour("edge") <==> t !in TypeColours || t == "edge"
  {
  }

  /**
   * The labels the marking pass writes, stripped as `setColors` strips them:
   * a one-face tag shows that face's colour, ' bulk' the bulk colour, the
   * misspelt 'unkonwn' falls back to the edge colour.
   */
  lemma MarkingLabelsColoured(face: string)
    requires face in {"100", "110", "111"}
    ensures TypeColour(PyText.Strip(Marking.Label([face]))) == TypeColours[face]
    ensures TypeColour(PyText.Strip(" bulk")) == TypeColours["bulk"]
    ensures TypeColour(PyText.Strip("subsurface")) == TypeColours["subsurface"]
    ensures TypeColour(PyText.Strip("edge")) == TypeColours["edge"]
    ensures TypeColour(PyText.Strip("corner")) == TypeColours["corner"]
    ensures TypeColour(PyText.Strip("unkonwn")) == TypeDefault
  {
    assert Marking.Label([face]) == face + " ";
    StripTrailing(face);
    StripLeading("bulk");
    StripUnpadded("subsurface");
    StripUnpadded("edge");
    StripUnpadded("corner");
    StripUnpadded("unkonwn");
  }

  /** Any label of two or more face tags falls back to the default colour. */
  lemma SeveralTagsDefault(tags: seq<string>)
    requires |tags| >= 2 && forall i :: 0 <= i < |tags| ==> tags[i] in {"100", "110", "111"}
    ensures TypeColour(PyText.Strip(Marking.Label(tags))) == TypeDefault
  {
    var text := LabelHead(tags);
    TagChars(tags[0]);
    TagChars(tags[1]);
    HeadChars(tags[0], tags[1], Marking.Label(tags[2..]));
    StripKeepsPrefix(text, 7);
    NoLongDigitKey(PyText.Strip(text));
  }

  /** The first two tags of a label, each followed by its blank, then the rest. */
  lemma LabelHead(tags: seq<string>) returns (text: string)
    requires |tags| >= 2
    ensures Marking.Label(tags) == text
    ensures text == tags[0] + " " + (tags[1] + " " + Marking.Label(tags[2..]))
  {
    text := tags[0] + " " + (tags[1] + " " + Marking.Label(tags[2..]));
    assert tags[1..][1..] == tags[2..];
  }

  lemma HeadChars(t0: string, t1: string, rest: string)
    requires |t0| == 3 && |t1| == 3
    ensures var text := t0 + " " + (t1 + " " + rest); |text| >= 8 && text[0] == t0[0] && text[6] == t1[2]
  {
  }

  lemma TagChars(t: string)
    requires t in {"100", "110", "111"}
    ensures |t| == 3 && t[0] == '1' && !IsSpace(t[0]) && !IsSpace(t[2])
  {
  }

  /** No site-type key both starts with a digit one and has seven or more characters. */
  lemma NoLongDigitKey(t: string)
    requires |t| >= 7 && t[0] == '1'
    ensures t !in TypeColours
  {
  }

  lemma StripUnpadded(s: string)
    requires s != [] && !IsSpace(s[0]) && !IsSpace(s[|s| - 1])
    ensures PyText.Strip(s) == s
  {
  }

  lemma StripTrailing(s: string)
    requires s != [] && !IsSpace(s[0]) && !IsSpace(s[|s| - 1])
    ensures PyText.Strip(s + " ") == s
  {
    assert (s + " ")[..|s|] == s;
  }

  lemma StripLeading(s: string)
    requires s != [] && !IsSpace(s[0]) && !IsSpace(s[|s| - 1])
    ensures PyText.Strip(" " + s) == s
  {
    assert (" " + s)[1..] == s;
  }

  /** Stripping a string with a non-blank head keeps a prefix, at least up to the non-blank `s[k - 1]`. */
  lemma {:induction false} StripKeepsPrefix(s: string, k: nat)
    requires 1 <= k <= |s| && !IsSpace(s[0]) && !IsSpace(s[k - 1])
    ensures |PyText.Strip(s)| >= k && PyText.Strip(s) == s[..|PyText.Strip(s)|]
    decreases |s|
  {
    if IsSpace(s[|s| - 1]) {
      var u := s[..|s| - 1];
      StripKeepsPrefix(u, k);
      assert PyText.Strip(s) == PyText.Strip(u);
      assert u[..|PyText.Strip(u)|] == s[..|PyText.Strip(u)|];
    }
  }

  /** `n` copies of the element symbol `e`. */
  function Copies(e: string, n: nat): (r: seq<string>)
    ensures |r| == n && forall i :: 0 <= i < n ==> r[i] == e
  {
    seq(n, _ => e)
  }

  /** `np.max(positions, axis=0)[2]`: the largest z, attained by some atom. */
  function MaxZ(ps: seq<Point>): (z: real)
    requires |ps| > 0
    ensures forall i :: 0 <= i < |ps| ==> ps[i].z <= z
    ensures exists i :: 0 <= i < |ps| && ps[i].z == z
  {
    if |ps| == 1 then ps[0].z
    else
      var m := MaxZ(ps[..|ps| - 1]);
      assert forall i :: 0 <= i < |ps| - 1 ==> ps[..|ps| - 1][i] == ps[i];
      if ps[|ps| - 1].z > m then ps[|ps| - 1].z else m
  }

  /** The colour rows of `setColors('ele')`: row i is the colour of element i. */
  function ByElement(es: seq<string>): (r: seq<Colour>)
    ensures |r| == |es| && forall i :: 0 <= i < |es| ==> r[i] == EleColour(es[i])
  {
    seq(|es|, i requires 0 <= i < |es| => EleColour(es[i]))
  }

  /** The rows after colouring the first |es| of them by element, the others kept. */
  function ByElementOver(es: seq<string>, rows: seq<Colour>): (r: seq<Colour>)
    ensures |r| == |rows|
  {
    seq(|rows|, i requires 0 <= i < |rows| => if i < |es| then EleColour(es[i]) else rows[i])
  }

  lemma ByElementStep(es: seq<string>, i: nat, rows: seq<Colour>)
    requires i < |es| == |rows|
    ensures ByElementOver(es[..i + 1], rows) == ByElementOver(es[..i], rows)[i := EleColour(es[i])]
    ensures ByElementOver(es, rows) == ByElement(es)
  {
  }

  /**
   * The colour rows after `setColors('site_type')` over `rows`: every row that
   * has a label takes the colour of the stripped label, the others keep theirs.
   */
  function ByLabel(st: seq<string>, rows: seq<Colour>): (r: seq<Colour>)
    ensures |r| == |rows|
    ensures forall i :: 0 <= i < |rows| && i < |st| ==> r[i] == TypeColour(PyText.Strip(st[i]))
    ensures forall i :: |st| <= i < |rows| ==> r[i] == rows[i]
  {
    seq(|rows|, i requires 0 <= i < |rows| => if i < |st| then TypeColour(PyText.Strip(st[i])) else rows[i])
  }

  lemma ByLabelStep(st: seq<string>, i: nat, rows: seq<Colour>)
    requires i < |st| && i < |rows|
    ensures ByLabel(st[..i + 1], rows) == ByLabel(st[..i], rows)[i := TypeColour(PyText.Strip(st[i]))]
  {
  }

  lemma ByLabelBeyond(st: seq<string>, i: nat, rows: seq<Colour>)
    requires i == |rows| && i < |st|
    ensures ByLabel(st[..i], rows) == ByLabel(st, rows)
  {
  }

  /** The elements of a particle: one symbol for every atom, or a list given per atom. */
  datatype Eles = OneElement(e: string) | PerAtom(es: seq<string>)

  class NanoParticle {
    var eles: seq<string>
    var positions: seq<Point>
    var siteTypes: Option<seq<string>>
    var covTypes: Option<seq<string>>
    var tofs: Option<seq<real>>
    var colors: array<Colour>
    var maxZ: real

    /** One colour row per element. */
    ghost predicate Valid()
      reads this
    {
      |eles| == colors.Length
    }

    /** `NanoParticle.__init__`. */
    constructor(es: Eles, positions: seq<Point>, siteTypes: Option<seq<string>>, covTypes: Option<seq<string>>,
                tofs: Option<seq<real>>)
      requires |positions| > 0
      ensures Valid()
      ensures es.OneElement? ==> eles == Copies(es.e, |positions|)
      ensures es.PerAtom? ==> eles == es.es
      ensures this.positions == positions && this.siteTypes == siteTypes
      ensures this.covTypes == covTypes && this.tofs == tofs
      ensures fresh(colors)
      ensures forall i :: 0 <= i < colors.Length ==> colors[i] == (0.0, 0.0, 0.0)
      ensures maxZ == MaxZ(positions)
    {
      eles := if es.OneElement? then Copies(es.e, |positions|) else es.es;
      this.positions := positions;
      this.siteTypes := siteTypes;
      this.covTypes := covTypes;
      this.tofs := tofs;
      var n := if es.OneElement? then |positions| else |es.es|;
      colors := new Colour[n]((_) => (0.0, 0.0, 0.0));
      maxZ := MaxZ(positions);
    }

    /**
     * `setColors`: 'ele' colours every row from its element; 'site_type'
     * colours row i from the stripped label i, raising IndexError at the first
     * label past the last row and TypeError when there are no labels at all;
     * any other colour type changes nothing.
     */
    method SetColors(coltype: string) returns (raised: Option<string>)
      requires Valid()
      modifies colors
      ensures Valid()
      ensures coltype == "ele" ==> raised == None && colors[..] == ByElement(eles)
      ensures coltype != "ele" && coltype == "site_type" ==>
        match siteTypes
        case None => raised == Some("TypeError") && colors[..] == old(colors[..])
        case Some(st) =>
          colors[..] == ByLabel(st, old(colors[..])) &&
          (raised == None <==> |st| <= colors.Length) &&
          (raised != None ==> raised == Some("IndexError"))
      ensures coltype != "ele" && coltype != "site_type" ==> raised == None && colors[..] == old(colors[..])
    {
      raised := None;
      if coltype == "ele" {
        ColourByElement();
      } else if coltype == "site_type" {
        match siteTypes
        case None =>
          raised := Some("TypeError");
        case Some(st) =>
          raised := ColourByLabel(st);
      }
    }

    /** The 'ele' loop: row i takes the colour of element i. */
    method ColourByElement()
      requires Valid()
      modifies colors
      ensures colors[..] == ByElement(eles)
    {
      for i := 0 to |eles|
        invariant colors[..] == ByElementOver(eles[..i], old(colors[..]))
      {
        colors[i] := EleColour(eles[i]);
        ByElementStep(eles, i, old(colors[..]));
      }
      assert eles[..|eles|] == eles;
    }

    /** The 'site_type' loop: row i takes the colour of stripped label i, while there is a row i. */
    method ColourByLabel(st: seq<string>) returns (raised: Option<string>)
      modifies colors
      ensures colors[..] == ByLabel(st, old(colors[..]))
      ensures raised == None <==> |st| <= colors.Length
      ensures raised != None ==> raised == Some("IndexError")
    {
      raised := None;
      var i := 0;
      while i < |st|
        invariant i <= |st| && i <= colors.Length
        invariant colors[..] == ByLabel(st[..i], old(colors[..]))
      {
        if i == colors.Length {
          ByLabelBeyond(st, i, old(colors[..]));
          return Some("IndexError");
        }
        colors[i] := TypeColour(PyText.Strip(st[i]));
        ByLabelStep(st, i, old(colors[..]));
        i := i + 1;
      }
      assert st[..i] == st;
    }
  }
}

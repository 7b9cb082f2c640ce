/**
 * The writer of the kinetic Monte Carlo input files: input.txt (conditions
 * and counts), species.txt, products.txt and events.txt (one block per
 * record). A file is the sequence of its `write` calls, whose text is their
 * concatenation; it holds the writes made before the first exception, and any
 * exception makes the writer answer false.
 */
module KmcIo {
  import opened Common
  import PyText
  import opened DataClass

  /** `str2zero`: a string becomes 0, every other value is returned as it is. */
  function Str2Zero(v: Json): Json
  {
    if v.Str? then Int(0) else v
  }

  /** The result is never a string, only strings change, and a second pass changes nothing. */
  lemma Str2ZeroLaw(v: Json)
    ensures !Str2Zero(v).Str?
    ensures Str2Zero(v) != v <==> v.Str?
    ensures Str2Zero(Str2Zero(v)) == Str2Zero(v)
  {
  }

  // ------------------------------------------------ Python operations on values

  /** `d[key]`: `None` stands for the KeyError or TypeError Python raises. */
  function Lookup(d: Json, key: string): Option<Json>
  {
    if d.Object? && key in d.fields then Some(d.fields[key]) else None
  }

  /** `x[i]` for a non-negative `i`: a list item or a one-character string. */
  function Index(x: Json, i: nat): Option<Json>
  {
    match x
    case Array(a) => if i < |a| then Some(a[i]) else None
    case Str(s) => if i < |s| then Some(Str([s[i]])) else None
    case _ => None
  }

  /** `d[key][i]`. */
  function Item(d: Json, key: string, i: nat): Option<Json>
  {
    match Lookup(d, key)
    case None => None
    case Some(x) => Index(x, i)
  }

  /** `float(x)` on a decoded value. */
  function Float(x: Json): Option<real>
  {
    match x
    case Int(i) => Some(i as real)
    case Real(r) => Some(r)
    case Bool(b) => Some(if b then 1.0 else 0.0)
    case Str(s) => PyText.ParseReal(s)
    case _ => None
  }

  /** The argument of `range(x)`: an int, or a bool counting as 0 or 1. */
  function RangeCount(x: Json): Option<int>
  {
    match x
    case Int(i) => Some(i)
    case Bool(b) => Some(if b then 1 else 0)
    case _ => None
  }

  /** Python's `int(x)` on a float: truncation toward zero. */
  function Trunc(x: real): int
  {
    if x >= 0.0 then x.Floor else -((-x).Floor)
  }

  // ------------------------------------------------------------- bond length

  /** `(int(b * 10) + 1) / 10.0`. */
  function Rounded(b: real): real
  {
    (Trunc(b * 10.0) + 1) as real / 10.0
  }

  /** For a non-negative length, the written bond length lies in (b, b + 0.1]. */
  lemma RoundedBounds(b: real)
    requires b >= 0.0
    ensures b < Rounded(b) <= b + 0.1
  {
    var f := (b * 10.0).Floor;
    assert f as real <= b * 10.0 < f as real + 1.0;
  }

  /**
   * The bond length of input.txt: 1.45/2 (FCC) or 1.75/2 (BCC) times the
   * lattice constant, rounded up to the next tenth; any other structure leaves
   * it unbound.
   */
  function BondLength(values: Json): (r: Option<real>)
  {
    var structure := Lookup(values, "Crystal structure");
    if structure != Some(Str("FCC")) && structure != Some(Str("BCC")) then None
    else
      match Lookup(values, "Lattice constant")
      case None => None
      case Some(a) =>
        match Float(a)
        case None => None
        case Some(x) =>
          var b := (if structure == Some(Str("FCC")) then 1.45 / 2.0 else 1.75 / 2.0) * x;
          Some(Rounded(b))
  }

  /** The bond length for a readable lattice constant `x`: the rounded 0.725·x (FCC) or 0.875·x (BCC). */
  lemma BondLengthOf(values: Json, a: Json, x: real)
    requires Lookup(values, "Lattice constant") == Some(a) && Float(a) == Some(x)
    ensures BondLength(values) ==
            if Lookup(values, "Crystal structure") == Some(Str("FCC")) then Some(Rounded(0.725 * x))
            else if Lookup(values, "Crystal structure") == Some(Str("BCC")) then Some(Rounded(0.875 * x))
            else None
  {
    assert 1.45 / 2.0 == 0.725 && 1.75 / 2.0 == 0.875;
  }

  // --------------------------------------------------------- formatted writes

  /** An f-string: its text when every part can be evaluated. */
  function Joined(parts: seq<Option<string>>): (r: Option<string>)
    ensures r.Some? <==> forall i :: 0 <= i < |parts| ==> parts[i].Some?
  {
    if parts == [] then Some("")
    else
      match parts[0]
      case None => None
      case Some(p) =>
        match Joined(parts[1..])
        case None => None
        case Some(q) => Some(p + q)
  }

  /** `{x}` inside an f-string, where `text` is Python's `str`. */
  function Shown(text: Json -> string, x: Option<Json>): Option<string>
  {
    match x
    case None => None
    case Some(v) => Some(text(v))
  }

  /** A `tag: {d[key]}` line. */
  function Entry(text: Json -> string, d: Json, tag: string, key: string): Option<string>
  {
    Joined([Some(tag), Shown(text, Lookup(d, key)), Some("\n")])
  }

  /** A line listing `d[key][0] .. d[key][n - 1]` separated by blanks. */
  function Items(text: Json -> string, d: Json, tag: string, key: string, n: nat): Option<string>
  {
    var parts := seq(n, i requires 0 <= i < n => Shown(text, Item(d, key, i)));
    Joined([Some(tag)] + Interleaved(parts) + [Some("\n")])
  }

  /** `[p0, " ", p1, " ", ...]` without a trailing blank. */
  function Interleaved(parts: seq<Option<string>>): seq<Option<string>>
  {
    if |parts| <= 1 then parts else [parts[0], Some(" ")] + Interleaved(parts[1..])
  }

  // --------------------------------------------------------------- input.txt

  /** The eight writes of input.txt. */
  function InputWrites(text: Json -> string, values: Json, kmc: Json, bond: real): seq<Option<string>>
  {
    [Joined([Shown(text, Lookup(values, "Temperature")), Some("\t\t ! Temperature (K)\n")]),
     Joined([Shown(text, Lookup(values, "Pressure")), Some("\t\t ! Pressure (Pa)\n")]),
     Some(text(Real(bond)) + "\t\t ! Bond length (A)\n"),
     Joined([Shown(text, Lookup(kmc, "nspecies")), Some("\t\t ! Num of species\n")]),
     Joined([Shown(text, Lookup(kmc, "nevents")), Some("\t\t ! Num of events\n")]),
     Joined([Shown(text, Lookup(kmc, "nproducts")), Some("\t\t ! Num of products\n")]),
     Joined([Shown(text, Lookup(kmc, "nLoop")), Some("\t\t ! Num of steps\n")]),
     Joined([Shown(text, Lookup(kmc, "record_int")), Some("\t\t ! record inteval\n")])]
  }

  // ------------------------------------------------------------ record blocks

  datatype Section = Species | Products | Events

  /** The counter that sizes a section, and the key prefix of its records. */
  function CountKey(sec: Section): string
  {
    match sec
    case Species => "nspecies"
    case Products => "nproducts"
    case Events => "nevents"
  }

  function RecordKey(sec: Section, n: nat): string
  {
    (match sec case Species => "s" case Products => "p" case Events => "e") + IntText(n + 1)
  }

  /** The block of species record `d`, numbered `n + 1`; the partial pressure is written as a fraction. */
  function SpecieBlock(text: Json -> string, d: Json, n: nat): seq<Option<string>>
  {
    [Some("ID: " + IntText(n + 1) + "\n"),
     Entry(text, d, "Name: ", "name"),
     Entry(text, d, "is_twosite: ", "is_twosite"),
     Entry(text, d, "mass: ", "mass"),
     Entry(text, d, "S_gas0: ", "S_gas"),
     Entry(text, d, "S_ads: ", "S_ads"),
     Items(text, d, "sticking: ", "sticking", 2),
     Items(text, d, "E_ads_para: ", "E_ads_para", 3),
     Entry(text, d, "Ea_diff: ", "Ea_diff"),
     Joined([Some("PP_ratio: "), PartialPressure(text, d), Some("\n")]),
     Some("\n")]
  }

  /** `float(d['PP_ratio']) * 0.01`, shown. */
  function PartialPressure(text: Json -> string, d: Json): Option<string>
  {
    match Lookup(d, "PP_ratio")
    case None => None
    case Some(p) =>
      match Float(p)
      case None => None
      case Some(x) => Some(text(Real(x * 0.01)))
  }

  /**
   * After `event_gen: ` or `event_consum: `: "0" when the count is falsy, else
   * the first `count` list entries each followed by a blank, then the newline.
   */
  function Listing(text: Json -> string, d: Json, countKey: string, listKey: string): seq<Option<string>>
  {
    match Lookup(d, countKey)
    case None => [None]
    case Some(c) =>
      if !Truthy(c) then [Some("0\n")]
      else
        match RangeCount(c)
        case None => [None]
        case Some(k) => seq(RangeLen(k), i requires 0 <= i < RangeLen(k) => Joined([Shown(text, Item(d, listKey, i)), Some(" ")])) + [Some("\n")]
  }

  function ProductBlock(text: Json -> string, d: Json, n: nat): seq<Option<string>>
  {
    [Some("ID: " + IntText(n + 1) + "\n"),
     Entry(text, d, "Name: ", "name"),
     Entry(text, d, "num_gen: ", "num_gen"),
     Some("event_gen: ")]
    + Listing(text, d, "num_gen", "event_gen")
    + [Entry(text, d, "num_consum: ", "num_consum"), Some("event_consum: ")]
    + Listing(text, d, "num_consum", "event_consum")
    + [Some("\n")]
  }

  /** The event type names of the GUI and the short names the simulator reads. */
  const TypeAlias: map<string, string> := map["Adsorption" := "ads", "Desorption" := "des",
                                               "Diffusion" := "diff", "Reaction" := "rec"]

  function AliasOf(t: Option<Json>): Option<string>
  {
    if t.Some? && t.value.Str? && t.value.s in TypeAlias then Some(TypeAlias[t.value.s]) else None
  }

  /** A coverage line: both entries passed through `str2zero`. */
  function Coverage(text: Json -> string, d: Json, tag: string, key: string): Option<string>
  {
    Joined([Some(tag), Shown(text, Zeroed(Item(d, key, 0))), Some(" "), Shown(text, Zeroed(Item(d, key, 1))), Some("\n")])
  }

  /** `str2zero` applied to an entry that could be read. */
  function Zeroed(x: Option<Json>): Option<Json>
  {
    if x.Some? then Some(Str2Zero(x.value)) else None
  }

  function EventBlock(text: Json -> string, d: Json, n: nat): seq<Option<string>>
  {
    [Some("ID: " + IntText(n + 1) + "\n"),
     Entry(text, d, "Name: ", "name"),
     Joined([Some("event_type: "), AliasOf(Lookup(d, "type")), Some("\n")]),
     Entry(text, d, "is_twosite: ", "is_twosite"),
     Coverage(text, d, "cov_before: ", "cov_before"),
     Coverage(text, d, "cov_after: ", "cov_after")]
    + (if Lookup(d, "type") == Some(Str("Reaction")) then [Items(text, d, "BEP_para: ", "BEP_para", 2)] else [])
    + [Some("\n")]
  }

  /** The writes of record `n` of a section; a missing record stops before its ID line. */
  function BlockWrites(text: Json -> string, sec: Section, kmc: Json, n: nat): seq<Option<string>>
  {
    match Lookup(kmc, RecordKey(sec, n))
    case None => [None]
    case Some(d) =>
      match sec
      case Species => SpecieBlock(text, d, n)
      case Products => ProductBlock(text, d, n)
      case Events => EventBlock(text, d, n)
  }

  /** The writes of the first `k` records of a section. */
  function Blocks(text: Json -> string, sec: Section, kmc: Json, k: nat): seq<Option<string>>
  {
    if k == 0 then [] else Blocks(text, sec, kmc, k - 1) + BlockWrites(text, sec, kmc, k - 1)
  }

  /** The writes of a whole section file: `range` of its counter, one block per record. */
  function SectionWrites(text: Json -> string, sec: Section, kmc: Json): seq<Option<string>>
  {
    match Lookup(kmc, CountKey(sec))
    case None => [None]
    case Some(c) =>
      match RangeCount(c)
      case None => [None]
      case Some(k) => Blocks(text, sec, kmc, RangeLen(k))
  }

  // ------------------------------------------------------------ files on disk

  /** What a file receives: every write up to the first one that raises. */
  datatype FileWrite = FileWrite(writes: seq<string>, complete: bool)

  function Written(ws: seq<Option<string>>): FileWrite
  {
    if ws == [] then FileWrite([], true)
    else if ws[0].None? then FileWrite([], false)
    else
      var rest := Written(ws[1..]);
      FileWrite([ws[0].value] + rest.writes, rest.complete)
  }

  /** A file is complete iff no write raised, and then it holds every write in order. */
  lemma {:induction false} WrittenMeaning(ws: seq<Option<string>>)
    ensures |Written(ws).writes| <= |ws|
    ensures Written(ws).complete <==> forall i :: 0 <= i < |ws| ==> ws[i].Some?
    ensures Written(ws).complete ==>
              |Written(ws).writes| == |ws| && forall i :: 0 <= i < |ws| ==> Written(ws).writes[i] == ws[i].value
  {
    if ws != [] && ws[0].Some? {
      WrittenMeaning(ws[1..]);
      assert forall i :: 1 <= i < |ws| ==> ws[1..][i - 1] == ws[i];
    }
  }

  /** Writing `a` then `b` is writing `a`, and `b` too when `a` went through. */
  lemma {:induction false} WrittenConcat(a: seq<Option<string>>, b: seq<Option<string>>)
    ensures Written(a + b) ==
            if Written(a).complete then FileWrite(Written(a).writes + Written(b).writes, Written(b).complete)
            else Written(a)
  {
    if a == [] {
      assert a + b == b;
    } else {
      assert (a + b)[1..] == a[1..] + b;
      if a[0].Some? {
        WrittenConcat(a[1..], b);
      }
    }
  }

  /** After a record fails, later records add nothing to the file. */
  lemma {:induction false} StopsAtFailure(text: Json -> string, sec: Section, kmc: Json, k: nat, m: nat)
    requires k <= m && !Written(Blocks(text, sec, kmc, k)).complete
    ensures Written(Blocks(text, sec, kmc, m)) == Written(Blocks(text, sec, kmc, k))
    decreases m
  {
    if m > k {
      StopsAtFailure(text, sec, kmc, k, m - 1);
      WrittenConcat(Blocks(text, sec, kmc, m - 1), BlockWrites(text, sec, kmc, m - 1));
    }
  }

  /** The four files the writer replaces. */
  datatype KmcFiles = KmcFiles(input: seq<string>, species: seq<string>, products: seq<string>, events: seq<string>)

  /**
   * `writeKmcInp` as a whole: the answer and the files afterwards. A file is
   * replaced from the moment it is opened; files not reached keep what they
   * held. `saveLi` says whether numpy converts and saves the lateral matrix.
   */
  function Run(text: Json -> string, saveLi: Json -> bool, disk: KmcFiles, values: Json): (bool, KmcFiles)
  {
    match BondLength(values)
    case None => (false, disk)
    case Some(bond) =>
      match Lookup(values, "KMC")
      case None => (false, disk)
      case Some(kmc) => InputAndRecords(text, saveLi, disk, values, kmc, bond)
  }

  /** From the opening of input.txt on: its eight lines, the lateral matrix, then the record files. */
  function InputAndRecords(text: Json -> string, saveLi: Json -> bool, disk: KmcFiles, values: Json, kmc: Json,
                           bond: real): (bool, KmcFiles)
  {
    var input := Written(InputWrites(text, values, kmc, bond));
    var d1 := disk.(input := input.writes);
    if !input.complete then (false, d1)
    else if Lookup(kmc, "li").None? || !saveLi(Lookup(kmc, "li").value) then (false, d1)
    else RecordFiles(text, kmc, d1)
  }

  /** The three record files, written one after the other once input.txt and the lateral matrix are out. */
  function RecordFiles(text: Json -> string, kmc: Json, disk: KmcFiles): (bool, KmcFiles)
  {
    var species := Written(SectionWrites(text, Species, kmc));
    var d2 := disk.(species := species.writes);
    if !species.complete then (false, d2)
    else
      var products := Written(SectionWrites(text, Products, kmc));
      var d3 := d2.(products := products.writes);
      if !products.complete then (false, d3)
      else
        var events := Written(SectionWrites(text, Events, kmc));
        (events.complete, d3.(events := events.writes))
  }

  /** `f.write(w)` for each `w` in turn, stopping at the first that raises. */
  method Append(file: seq<string>, ws: seq<Option<string>>) returns (out: seq<string>, ok: bool)
    ensures out == file + Written(ws).writes && ok == Written(ws).complete
  {
    out := file;
    for i := 0 to |ws|
      invariant Written(ws[..i]).complete && out == file + Written(ws[..i]).writes
    {
      WrittenConcat(ws[..i], ws[i..]);
      assert ws[..i] + ws[i..] == ws;
      if ws[i].None? {
        return out, false;
      }
      out := out + [ws[i].value];
      WrittenConcat(ws[..i], [ws[i]]);
      assert ws[..i + 1] == ws[..i] + [ws[i]];
    }
    assert ws[..|ws|] == ws;
    return out, true;
  }

  /** One section file: open it, then write the block of each record in turn. */
  method WriteSection(text: Json -> string, sec: Section, kmc: Json) returns (writes: seq<string>, ok: bool)
    ensures writes == Written(SectionWrites(text, sec, kmc)).writes
    ensures ok == Written(SectionWrites(text, sec, kmc)).complete
  {
    writes := [];
    var count := Lookup(kmc, CountKey(sec));
    if count.None? || RangeCount(count.value).None? {
      return [], false;
    }
    var k := RangeLen(RangeCount(count.value).value);
    for n := 0 to k
      invariant writes == Written(Blocks(text, sec, kmc, n)).writes && Written(Blocks(text, sec, kmc, n)).complete
    {
      var block := BlockWrites(text, sec, kmc, n);
      WrittenConcat(Blocks(text, sec, kmc, n), block);
      writes, ok := Append(writes, block);
      if !ok {
        StopsAtFailure(text, sec, kmc, n + 1, k);
        return;
      }
    }
    ok := true;
  }

  class KmcDisk {
    var input: seq<string>
    var species: seq<string>
    var products: seq<string>
    var events: seq<string>

    function Files(): KmcFiles
      reads this
    {
      KmcFiles(input, species, products, events)
    }

    /** `writeKmcInp`: write the four input files and say whether every step went through. */
    method WriteKmcInp(text: Json -> string, saveLi: Json -> bool, values: Json) returns (ok: bool)
      modifies this
      ensures (ok, Files()) == Run(text, saveLi, old(Files()), values)
    {
      var bond := BondLength(values);
      var kmc := Lookup(values, "KMC");
      if bond.None? || kmc.None? {
        return false;
      }
      ok := WriteInputAndRecords(text, saveLi, values, kmc.value, bond.value);
    }

    method WriteInputAndRecords(text: Json -> string, saveLi: Json -> bool, values: Json, kmc: Json, bond: real)
      returns (ok: bool)
      modifies this
      ensures (ok, Files()) == InputAndRecords(text, saveLi, old(Files()), values, kmc, bond)
    {
      var ws := InputWrites(text, values, kmc, bond);
      input, ok := Append([], ws);
      assert input == Written(ws).writes;
      if !ok {
        return;
      }
      var li := Lookup(kmc, "li");
      if li.None? || !saveLi(li.value) {
        return false;
      }
      ok := WriteRecords(text, kmc);
    }

    /** species.txt, products.txt and events.txt, stopping at the first file that fails. */
    method WriteRecords(text: Json -> string, kmc: Json) returns (ok: bool)
      modifies this
      ensures (ok, Files()) == RecordFiles(text, kmc, old(Files()))
    {
      species, ok := WriteSection(text, Species, kmc);
      if !ok {
        return;
      }
      products, ok := WriteSection(text, Products, kmc);
      if !ok {
        return;
      }
      events, ok := WriteSection(text, Events, kmc);
    }
  }

  // ------------------------------------------------------------- properties

  lemma JoinedTwo(a: string, b: string)
    ensures Joined([Some(a), Some(b)]) == Some(a + b)
  {
    assert [Some(a), Some(b)][1..] == [Some(b)];
    assert [Some(b)][1..] == [];
    assert Joined([Some(b)]) == Some(b + "");
    assert b + "" == b;
  }

  /** The middle part of a three-part f-string, when the whole could be evaluated. */
  lemma JoinedMiddle(tag: string, x: Option<string>, tail: string)
    requires Joined([Some(tag), x, Some(tail)]).Some?
    ensures x.Some? && Joined([Some(tag), x, Some(tail)]) == Some(tag + x.value + tail)
  {
    var parts := [Some(tag), x, Some(tail)];
    assert parts[1] == x;
    assert parts[1..] == [x, Some(tail)];
    JoinedTwo(x.value, tail);
    assert Joined(parts) == Some(tag + (x.value + tail));
    assert tag + (x.value + tail) == tag + x.value + tail;
  }

  /** What a successful run has been through: every stage complete, and the files it leaves. */
  lemma RunSucceeded(text: Json -> string, saveLi: Json -> bool, disk: KmcFiles, values: Json)
    requires Run(text, saveLi, disk, values).0
    ensures BondLength(values).Some? && Lookup(values, "KMC").Some?
    ensures var kmc := Lookup(values, "KMC").value;
            var input := Written(InputWrites(text, values, kmc, BondLength(values).value));
            input.complete && Lookup(kmc, "li").Some? && saveLi(Lookup(kmc, "li").value) &&
            Written(SectionWrites(text, Species, kmc)).complete &&
            Written(SectionWrites(text, Products, kmc)).complete &&
            Written(SectionWrites(text, Events, kmc)).complete &&
            Run(text, saveLi, disk, values).1 ==
              KmcFiles(input.writes, Written(SectionWrites(text, Species, kmc)).writes,
                       Written(SectionWrites(text, Products, kmc)).writes,
                       Written(SectionWrites(text, Events, kmc)).writes)
  {
  }

  /** The eight writes of input.txt, once every one of them went through. */
  lemma InputWritesShape(text: Json -> string, values: Json, kmc: Json, bond: real)
    requires Written(InputWrites(text, values, kmc, bond)).complete
    ensures Lookup(values, "Temperature").Some? && Lookup(values, "Pressure").Some? &&
            Lookup(kmc, "nspecies").Some? && Lookup(kmc, "nevents").Some? && Lookup(kmc, "nproducts").Some? &&
            Lookup(kmc, "nLoop").Some? && Lookup(kmc, "record_int").Some?
    ensures Written(InputWrites(text, values, kmc, bond)).writes ==
            [text(Lookup(values, "Temperature").value) + "\t\t ! Temperature (K)\n",
             text(Lookup(values, "Pressure").value) + "\t\t ! Pressure (Pa)\n",
             text(Real(bond)) + "\t\t ! Bond length (A)\n",
             text(Lookup(kmc, "nspecies").value) + "\t\t ! Num of species\n",
             text(Lookup(kmc, "nevents").value) + "\t\t ! Num of events\n",
             text(Lookup(kmc, "nproducts").value) + "\t\t ! Num of products\n",
             text(Lookup(kmc, "nLoop").value) + "\t\t ! Num of steps\n",
             text(Lookup(kmc, "record_int").value) + "\t\t ! record inteval\n"]
  {
    var ws := InputWrites(text, values, kmc, bond);
    WrittenMeaning(ws);
    assert ws[0].Some? && ws[1].Some? && ws[3].Some? && ws[4].Some? && ws[5].Some? && ws[6].Some? && ws[7].Some?;
    ShownPair(text, values, "Temperature", "\t\t ! Temperature (K)\n");
    ShownPair(text, values, "Pressure", "\t\t ! Pressure (Pa)\n");
    ShownPair(text, kmc, "nspecies", "\t\t ! Num of species\n");
    ShownPair(text, kmc, "nevents", "\t\t ! Num of events\n");
    ShownPair(text, kmc, "nproducts", "\t\t ! Num of products\n");
    ShownPair(text, kmc, "nLoop", "\t\t ! Num of steps\n");
    ShownPair(text, kmc, "record_int", "\t\t ! record inteval\n");
  }

  lemma ShownPair(text: Json -> string, d: Json, key: string, tail: string)
    requires Joined([Shown(text, Lookup(d, key)), Some(tail)]).Some?
    ensures Lookup(d, key).Some?
    ensures Joined([Shown(text, Lookup(d, key)), Some(tail)]) == Some(text(Lookup(d, key).value) + tail)
  {
    assert [Shown(text, Lookup(d, key)), Some(tail)][0] == Shown(text, Lookup(d, key));
    JoinedTwo(text(Lookup(d, key).value), tail);
  }

  /**
   * After a successful run input.txt holds exactly eight lines: temperature,
   * pressure, bond length, the three counts, the number of steps and the
   * recording interval.
   */
  lemma InputFileOnSuccess(text: Json -> string, saveLi: Json -> bool, disk: KmcFiles, values: Json)
    requires Run(text, saveLi, disk, values).0
    ensures BondLength(values).Some? && Lookup(values, "KMC").Some?
    ensures var kmc := Lookup(values, "KMC").value;
            Lookup(values, "Temperature").Some? && Lookup(values, "Pressure").Some? &&
            Lookup(kmc, "nspecies").Some? && Lookup(kmc, "nevents").Some? && Lookup(kmc, "nproducts").Some? &&
            Lookup(kmc, "nLoop").Some? && Lookup(kmc, "record_int").Some? &&
            Run(text, saveLi, disk, values).1.input ==
              [text(Lookup(values, "Temperature").value) + "\t\t ! Temperature (K)\n",
               text(Lookup(values, "Pressure").value) + "\t\t ! Pressure (Pa)\n",
               text(Real(BondLength(values).value)) + "\t\t ! Bond length (A)\n",
               text(Lookup(kmc, "nspecies").value) + "\t\t ! Num of species\n",
               text(Lookup(kmc, "nevents").value) + "\t\t ! Num of events\n",
               text(Lookup(kmc, "nproducts").value) + "\t\t ! Num of products\n",
               text(Lookup(kmc, "nLoop").value) + "\t\t ! Num of steps\n",
               text(Lookup(kmc, "record_int").value) + "\t\t ! record inteval\n"]
  {
    RunSucceeded(text, saveLi, disk, values);
    InputWritesShape(text, values, Lookup(values, "KMC").value, BondLength(values).value);
  }

  /** A complete file of `k` blocks: the first `k - 1` blocks, then a complete last block. */
  lemma BlocksStep(text: Json -> string, sec: Section, kmc: Json, k: nat)
    requires k > 0 && Written(Blocks(text, sec, kmc, k)).complete
    ensures Written(Blocks(text, sec, kmc, k - 1)).complete && Written(BlockWrites(text, sec, kmc, k - 1)).complete
    ensures Written(Blocks(text, sec, kmc, k)).writes ==
            Written(Blocks(text, sec, kmc, k - 1)).writes + Written(BlockWrites(text, sec, kmc, k - 1)).writes
  {
    WrittenConcat(Blocks(text, sec, kmc, k - 1), BlockWrites(text, sec, kmc, k - 1));
  }

  /** A complete file of blocks is made of complete blocks. */
  lemma {:induction false} BlocksComplete(text: Json -> string, sec: Section, kmc: Json, k: nat, n: nat)
    requires n < k && Written(Blocks(text, sec, kmc, k)).complete
    ensures Written(BlockWrites(text, sec, kmc, n)).complete
    decreases k
  {
    BlocksStep(text, sec, kmc, k);
    if n < k - 1 {
      BlocksComplete(text, sec, kmc, k - 1, n);
    }
  }

  /** A species block that went through: eleven writes, from its ID line to the empty line. */
  lemma SpecieBlockEnds(text: Json -> string, kmc: Json, n: nat)
    requires Written(BlockWrites(text, Species, kmc, n)).complete
    ensures var w := Written(BlockWrites(text, Species, kmc, n)).writes;
            |w| == 11 && w[0] == IdWrite(n) && w[10] == "\n"
  {
    WrittenMeaning(BlockWrites(text, Species, kmc, n));
    assert Lookup(kmc, RecordKey(Species, n)).Some?;
  }

  /** The ID line of record `n`. */
  function IdWrite(n: nat): string
  {
    "ID: " + IntText(n + 1) + "\n"
  }

  /** The eleven-write block layout of species.txt, as a property of its writes. */
  predicate SpeciesLayout(w: seq<string>, k: nat)
  {
    |w| == 11 * k && forall n :: 0 <= n < k ==> w[11 * n] == IdWrite(n) && w[11 * n + 10] == "\n"
  }

  lemma LayoutStep(pw: seq<string>, bw: seq<string>, k: nat)
    requires k > 0 && SpeciesLayout(pw, k - 1)
    requires |bw| == 11 && bw[0] == IdWrite(k - 1) && bw[10] == "\n"
    ensures SpeciesLayout(pw + bw, k)
  {
    var w := pw + bw;
    forall n | 0 <= n < k
      ensures w[11 * n] == IdWrite(n) && w[11 * n + 10] == "\n"
    {
      if n < k - 1 {
        assert w[11 * n] == pw[11 * n] && w[11 * n + 10] == pw[11 * n + 10];
      } else {
        assert w[11 * n] == bw[0] && w[11 * n + 10] == bw[10];
      }
    }
  }

  /**
   * species.txt is one eleven-write block per species: block n opens with
   * "ID: n+1" and closes with an empty line.
   */
  lemma {:induction false} SpeciesIds(text: Json -> string, kmc: Json, k: nat)
    requires Written(Blocks(text, Species, kmc, k)).complete
    ensures SpeciesLayout(Written(Blocks(text, Species, kmc, k)).writes, k)
  {
    if k > 0 {
      BlocksStep(text, Species, kmc, k);
      SpeciesIds(text, kmc, k - 1);
      SpecieBlockEnds(text, kmc, k - 1);
      LayoutStep(Written(Blocks(text, Species, kmc, k - 1)).writes, Written(BlockWrites(text, Species, kmc, k - 1)).writes, k);
    }
  }

  /** After a successful run species.txt holds one block per counted species, numbered from 1. */
  lemma SpeciesFileOnSuccess(text: Json -> string, saveLi: Json -> bool, disk: KmcFiles, values: Json)
    requires Run(text, saveLi, disk, values).0
    ensures Lookup(values, "KMC").Some?
    ensures var kmc := Lookup(values, "KMC").value;
            Lookup(kmc, "nspecies").Some? && RangeCount(Lookup(kmc, "nspecies").value).Some? &&
            SpeciesLayout(Run(text, saveLi, disk, values).1.species,
                          RangeLen(RangeCount(Lookup(kmc, "nspecies").value).value))
  {
    RunSucceeded(text, saveLi, disk, values);
    var kmc := Lookup(values, "KMC").value;
    assert Lookup(kmc, "nspecies").Some? && RangeCount(Lookup(kmc, "nspecies").value).Some?;
    SpeciesIds(text, kmc, RangeLen(RangeCount(Lookup(kmc, "nspecies").value).value));
  }

  /** The partial-pressure write of a species block is the decoded ratio times 0.01. */
  lemma SpeciePartialPressure(text: Json -> string, d: Json, n: nat)
    requires Written(SpecieBlock(text, d, n)).complete
    ensures Lookup(d, "PP_ratio").Some? && Float(Lookup(d, "PP_ratio").value).Some?
    ensures |Written(SpecieBlock(text, d, n)).writes| == 11
    ensures Written(SpecieBlock(text, d, n)).writes[9] ==
            "PP_ratio: " + text(Real(Float(Lookup(d, "PP_ratio").value).value * 0.01)) + "\n"
  {
    var w := SpecieBlock(text, d, n);
    WrittenMeaning(w);
    assert w[9].Some?;
    JoinedMiddle("PP_ratio: ", PartialPressure(text, d), "\n");
  }

  /**
   * The writes after `event_gen: ` (or `event_consum: `): "0" and the newline
   * when the count is falsy, otherwise one write per listed entry, each
   * followed by a blank, then the newline.
   */
  lemma ListingShape(text: Json -> string, d: Json, countKey: string, listKey: string)
    requires Written(Listing(text, d, countKey, listKey)).complete
    ensures Lookup(d, countKey).Some?
    ensures var c := Lookup(d, countKey).value;
            var w := Written(Listing(text, d, countKey, listKey)).writes;
            (!Truthy(c) ==> w == ["0\n"]) &&
            (Truthy(c) ==>
               RangeCount(c).Some? && |w| == RangeLen(RangeCount(c).value) + 1 && w[|w| - 1] == "\n" &&
               forall i :: 0 <= i < |w| - 1 ==> Item(d, listKey, i).Some? && w[i] == text(Item(d, listKey, i).value) + " ")
  {
    var ws := Listing(text, d, countKey, listKey);
    WrittenMeaning(ws);
    if Lookup(d, countKey).Some? && Truthy(Lookup(d, countKey).value) && RangeCount(Lookup(d, countKey).value).Some? {
      forall i | 0 <= i < |ws| - 1
        ensures Item(d, listKey, i).Some? && ws[i].value == text(Item(d, listKey, i).value) + " "
      {
        assert ws[i].Some?;
        JoinedTwo(text(Item(d, listKey, i).value), " ");
      }
    }
  }

  /** With a count of zero the listing is the single write "0\n". */
  lemma EmptyListing(text: Json -> string, d: Json, countKey: string, listKey: string)
    requires Lookup(d, countKey) == Some(Int(0))
    ensures Written(Listing(text, d, countKey, listKey)) == FileWrite(["0\n"], true)
  {
  }

  /**
   * An event block writes its type through the alias table and its
   * coverages through `str2zero`, and has a BEP_para write exactly when the
   * type is 'Reaction'.
   */
  lemma EventBlockShape(text: Json -> string, d: Json, n: nat)
    requires Written(EventBlock(text, d, n)).complete
    ensures AliasOf(Lookup(d, "type")).Some?
    ensures var w := Written(EventBlock(text, d, n)).writes;
            |w| == (if Lookup(d, "type") == Some(Str("Reaction")) then 8 else 7) &&
            w[2] == "event_type: " + AliasOf(Lookup(d, "type")).value + "\n"
    ensures Item(d, "cov_before", 0).Some? && Item(d, "cov_before", 1).Some?
    ensures Written(EventBlock(text, d, n)).writes[4] ==
            "cov_before: " + text(Str2Zero(Item(d, "cov_before", 0).value)) + " " +
            text(Str2Zero(Item(d, "cov_before", 1).value)) + "\n"
  {
    var w := EventBlock(text, d, n);
    WrittenMeaning(w);
    assert w[2].Some? && w[4].Some?;
    JoinedMiddle("event_type: ", AliasOf(Lookup(d, "type")), "\n");
    CoverageWrite(text, d, "cov_before: ", "cov_before");
  }

  lemma CoverageWrite(text: Json -> string, d: Json, tag: string, key: string)
    requires Coverage(text, d, tag, key).Some?
    ensures Item(d, key, 0).Some? && Item(d, key, 1).Some?
    ensures Coverage(text, d, tag, key).value ==
            tag + text(Str2Zero(Item(d, key, 0).value)) + " " + text(Str2Zero(Item(d, key, 1).value)) + "\n"
  {
    var x := Shown(text, Zeroed(Item(d, key, 0)));
    var y := Shown(text, Zeroed(Item(d, key, 1)));
    var parts := [Some(tag), x, Some(" "), y, Some("\n")];
    assert parts[1] == x && parts[3] == y;
    var a := x.value;
    var b := y.value;
    assert parts[1..][1..][1..] == [Some(b), Some("\n")];
    JoinedTwo(b, "\n");
    assert Joined(parts[1..][1..][1..]) == Some(b + "\n");
    assert parts[1..][1..][0] == Some(" ");
    assert Joined(parts[1..][1..]) == Some(" " + (b + "\n"));
    assert parts[1..][0] == Some(a);
    assert Joined(parts[1..]) == Some(a + (" " + (b + "\n")));
    assert Joined(parts) == Some(tag + (a + (" " + (b + "\n"))));
    assert Coverage(text, d, tag, key) == Joined(parts);
    assert tag + (a + (" " + (b + "\n"))) == tag + a + " " + b + "\n";
  }

  /** A structure other than FCC or BCC fails before any file is opened. */
  lemma UnknownStructureTouchesNothing(text: Json -> string, saveLi: Json -> bool, disk: KmcFiles, values: Json)
    requires Lookup(values, "Crystal structure") != Some(Str("FCC"))
    requires Lookup(values, "Crystal structure") != Some(Str("BCC"))
    ensures Run(text, saveLi, disk, values) == (false, disk)
  {
  }

  /** A record whose block raises makes the whole run fail, whichever section it is in. */
  lemma FailingRecordFails(text: Json -> string, saveLi: Json -> bool, disk: KmcFiles, values: Json,
                           sec: Section, n: nat)
    requires Lookup(values, "KMC").Some?
    requires var kmc := Lookup(values, "KMC").value;
             Lookup(kmc, CountKey(sec)).Some? && RangeCount(Lookup(kmc, CountKey(sec)).value).Some? &&
             n < RangeLen(RangeCount(Lookup(kmc, CountKey(sec)).value).value) &&
             !Written(BlockWrites(text, sec, kmc, n)).complete
    ensures !Run(text, saveLi, disk, values).0
  {
    if Run(text, saveLi, disk, values).0 {
      RunSucceeded(text, saveLi, disk, values);
      var kmc := Lookup(values, "KMC").value;
      var k := RangeLen(RangeCount(Lookup(kmc, CountKey(sec)).value).value);
      assert SectionWrites(text, sec, kmc) == Blocks(text, sec, kmc, k);
      BlocksComplete(text, sec, kmc, k, n);
    }
  }

  /** A species record without 'S_ads' (a key the Specie record does not declare) cannot be written. */
  lemma SpecieWithoutSAds(text: Json -> string, kmc: Json, n: nat, d: Json)
    requires Lookup(kmc, RecordKey(Species, n)) == Some(d) && Lookup(d, "S_ads").None?
    ensures !Written(BlockWrites(text, Species, kmc, n)).complete
  {
    var parts := [Some("S_ads: "), Shown(text, Lookup(d, "S_ads")), Some("\n")];
    assert parts[1].None?;
    assert BlockWrites(text, Species, kmc, n)[5] == Joined(parts);
    WrittenMeaning(BlockWrites(text, Species, kmc, n));
  }

  /** An event whose type is not one of the four GUI names cannot be written. */
  lemma UnknownEventType(text: Json -> string, kmc: Json, n: nat, d: Json)
    requires Lookup(kmc, RecordKey(Events, n)) == Some(d) && AliasOf(Lookup(d, "type")).None?
    ensures !Written(BlockWrites(text, Events, kmc, n)).complete
  {
    var parts := [Some("event_type: "), AliasOf(Lookup(d, "type")), Some("\n")];
    assert parts[1].None?;
    assert BlockWrites(text, Events, kmc, n)[2] == Joined(parts);
    WrittenMeaning(BlockWrites(text, Events, kmc, n));
  }

  /** A failure in species.txt leaves input.txt complete and the later files as they were. */
  lemma SpeciesFailureKeepsOthers(text: Json -> string, saveLi: Json -> bool, disk: KmcFiles, values: Json)
    requires BondLength(values).Some? && Lookup(values, "KMC").Some?
    requires var kmc := Lookup(values, "KMC").value;
             Written(InputWrites(text, values, kmc, BondLength(values).value)).complete &&
             Lookup(kmc, "li").Some? && saveLi(Lookup(kmc, "li").value) &&
             !Written(SectionWrites(text, Species, kmc)).complete
    ensures var r := Run(text, saveLi, disk, values);
            var kmc := Lookup(values, "KMC").value;
            !r.0 && |r.1.input| == 8 &&
            r.1.species == Written(SectionWrites(text, Species, kmc)).writes &&
            r.1.products == disk.products && r.1.events == disk.events
  {
    WrittenMeaning(InputWrites(text, values, Lookup(values, "KMC").value, BondLength(values).value));
  }
}

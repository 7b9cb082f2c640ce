/**
 * The records the KMC pane stores as JSON text: `Specie`, `Product` and
 * `Event`. Each is built from keyword arguments, normalises its empty list
 * fields after construction, and travels through JSON as the map of its fields
 * (the encoder emits the field map; the decoder calls the constructor with it).
 */
module DataClass {
  import opened Common

  /** A JSON value, as `json.loads` hands it to Python. */
  datatype Json =
    | Null
    | Bool(b: bool)
    | Int(i: int)
    | Real(r: real)
    | Str(s: string)
    | Array(items: seq<Json>)
    | Object(fields: map<string, Json>)

  /** Python truthiness of a decoded value: `not x` holds exactly for the falsy ones. */
  predicate Truthy(j: Json)
  {
    match j
    case Null => false
    case Bool(b) => b
    case Int(i) => i != 0
    case Real(r) => r != 0.0
    case Str(s) => s != ""
    case Array(a) => a != []
    case Object(m) => m != map[]
  }

  /** `x if x else fallback`: what `if not x: x = fallback` leaves behind. */
  function OrElse(j: Json, fallback: Json): (r: Json)
    ensures Truthy(fallback) ==> Truthy(r)
    ensures Truthy(j) ==> r == j
    ensures !Truthy(j) ==> r == fallback
  {
    if Truthy(j) then j else fallback
  }

  /** Keyword arguments of a call `Cls(**kwargs)` that the class does not declare. */
  predicate Undeclared(kwargs: map<string, Json>, declared: set<string>)
  {
    exists k :: k in kwargs && k !in declared
  }

  /** The argument a keyword call passes for `name`, or the field's default. */
  function Arg(kwargs: map<string, Json>, name: string, default: Json): Json
  {
    if name in kwargs then kwargs[name] else default
  }

  /** `[x, x, ...]` with `n` copies. */
  function Copies(x: Json, n: nat): (r: seq<Json>)
    ensures |r| == n && forall i :: 0 <= i < n ==> r[i] == x
  {
    seq(n, _ => x)
  }

  // ---------------------------------------------------------------- Specie

  datatype Specie = Specie(
    defaultName: Json, name: Json, mass: Json, ppRatio: Json, sGas: Json, eaDiff: Json,
    sticking: Json, eAdsPara: Json, isTwosite: Json, flagAds: Json, flagDes: Json, flagDiff: Json)

  const SpecieKeys: set<string> := {"default_name", "name", "mass", "PP_ratio", "S_gas", "Ea_diff",
                                     "sticking", "E_ads_para", "is_twosite", "flag_ads", "flag_des", "flag_diff"}

  /** `Specie.__post_init__`: an empty `sticking` becomes [1.0, 1.0], an empty `E_ads_para` [0.0, 0.0, 0.0]. */
  function SpeciePostInit(s: Specie): Specie
  {
    s.(sticking := OrElse(s.sticking, Array(Copies(Real(1.0), 2))),
       eAdsPara := OrElse(s.eAdsPara, Array(Copies(Real(0.0), 3))))
  }

  /** What `__post_init__` guarantees of every constructed specie. */
  predicate SpecieNormal(s: Specie)
  {
    Truthy(s.sticking) && Truthy(s.eAdsPara)
  }

  /** `Specie(**kwargs)`: the declared fields with their defaults, then `__post_init__`. */
  function NewSpecie(kwargs: map<string, Json>): (r: Outcome<Specie>)
    ensures r.Raised? <==> "default_name" !in kwargs || Undeclared(kwargs, SpecieKeys)
    ensures r.Ok? ==> SpecieNormal(r.value) && r.value.defaultName == kwargs["default_name"]
  {
    if "default_name" !in kwargs || Undeclared(kwargs, SpecieKeys) then Raised("TypeError")
    else
      Ok(SpeciePostInit(Specie(
        kwargs["default_name"],
        Arg(kwargs, "name", Str("")),
        Arg(kwargs, "mass", Real(0.0)),
        Arg(kwargs, "PP_ratio", Real(0.0)),
        Arg(kwargs, "S_gas", Real(0.0)),
        Arg(kwargs, "Ea_diff", Real(0.0)),
        Arg(kwargs, "sticking", Array([])),
        Arg(kwargs, "E_ads_para", Array([])),
        Arg(kwargs, "is_twosite", Bool(false)),
        Arg(kwargs, "flag_ads", Bool(false)),
        Arg(kwargs, "flag_des", Bool(false)),
        Arg(kwargs, "flag_diff", Bool(false)))))
  }

  /** `Specie.Encoder.default`: the object's field map. */
  function EncodeSpecie(s: Specie): (r: Json)
    ensures r.Object? && r.fields.Keys == SpecieKeys
  {
    Object(map["default_name" := s.defaultName, "name" := s.name, "mass" := s.mass, "PP_ratio" := s.ppRatio,
               "S_gas" := s.sGas, "Ea_diff" := s.eaDiff, "sticking" := s.sticking, "E_ads_para" := s.eAdsPara,
               "is_twosite" := s.isTwosite, "flag_ads" := s.flagAds, "flag_des" := s.flagDes,
               "flag_diff" := s.flagDiff])
  }

  /** `Specie.Decoder.decode` after the JSON text is parsed: anything but an object cannot be spread as keywords. */
  function DecodeSpecie(j: Json): Outcome<Specie>
  {
    if j.Object? then NewSpecie(j.fields) else Raised("TypeError")
  }

  /** Decoding an encoded specie rebuilds it up to normalisation, and a constructed specie exactly. */
  lemma SpecieRoundTrip(s: Specie)
    ensures DecodeSpecie(EncodeSpecie(s)) == Ok(SpeciePostInit(s))
    ensures SpecieNormal(s) ==> DecodeSpecie(EncodeSpecie(s)) == Ok(s)
  {
    var m := EncodeSpecie(s).fields;
    assert !Undeclared(m, SpecieKeys);
    SpecieNormalFixed(s);
  }

  /**
   * `o.__dict__` of a specie to which attributes were assigned after construction
   * (`setattr`, as the species pane does with `S_ads` and `sticking0`): the declared
   * fields, overwritten or extended by the later assignments.
   */
  function EncodeSpecieAfter(s: Specie, later: map<string, Json>): (r: Json)
    ensures r.Object? && r.fields.Keys == SpecieKeys + later.Keys
    ensures forall k :: k in later ==> r.fields[k] == later[k]
  {
    Object(EncodeSpecie(s).fields + later)
  }

  /** The encoded `__dict__` decodes again iff every later attribute is a declared field; otherwise TypeError. */
  lemma LaterAttributeRejected(s: Specie, later: map<string, Json>)
    ensures DecodeSpecie(EncodeSpecieAfter(s, later)).Raised? <==> Undeclared(later, SpecieKeys)
    ensures Undeclared(later, SpecieKeys) ==> DecodeSpecie(EncodeSpecieAfter(s, later)) == Raised("TypeError")
  {
    var m := EncodeSpecieAfter(s, later).fields;
    assert "default_name" in m;
    if Undeclared(later, SpecieKeys) {
      var k :| k in later && k !in SpecieKeys;
      assert k in m;
    } else {
      assert !Undeclared(m, SpecieKeys);
    }
  }

  /** Normalisation changes nothing on a normal specie, and applying it twice is applying it once. */
  lemma SpecieNormalFixed(s: Specie)
    ensures SpecieNormal(s) ==> SpeciePostInit(s) == s
    ensures SpecieNormal(SpeciePostInit(s))
    ensures SpeciePostInit(SpeciePostInit(s)) == SpeciePostInit(s)
  {
  }

  /** A specie given only its default name: empty name, zero numbers, normalised lists, all flags off. */
  lemma SpecieDefaults(n: Json)
    ensures NewSpecie(map["default_name" := n]) ==
            Ok(Specie(n, Str(""), Real(0.0), Real(0.0), Real(0.0), Real(0.0),
                      Array([Real(1.0), Real(1.0)]), Array([Real(0.0), Real(0.0), Real(0.0)]),
                      Bool(false), Bool(false), Bool(false), Bool(false)))
  {
    assert !Undeclared(map["default_name" := n], SpecieKeys);
    assert Copies(Real(1.0), 2) == [Real(1.0), Real(1.0)];
    assert Copies(Real(0.0), 3) == [Real(0.0), Real(0.0), Real(0.0)];
  }

  // --------------------------------------------------------------- Product

  datatype Product = Product(defaultName: Json, name: Json, numGen: Json, eventGen: Json,
                             numConsum: Json, eventConsum: Json)

  const ProductKeys: set<string> := {"default_name", "name", "num_gen", "event_gen", "num_consum", "event_consum"}

  /** `Product(**kwargs)`: no `__post_init__`, so counts and lists are kept as given. */
  function NewProduct(kwargs: map<string, Json>): (r: Outcome<Product>)
    ensures r.Raised? <==> "default_name" !in kwargs || Undeclared(kwargs, ProductKeys)
  {
    if "default_name" !in kwargs || Undeclared(kwargs, ProductKeys) then Raised("TypeError")
    else
      Ok(Product(
        kwargs["default_name"],
        Arg(kwargs, "name", Str("")),
        Arg(kwargs, "num_gen", Int(0)),
        Arg(kwargs, "event_gen", Array([])),
        Arg(kwargs, "num_consum", Int(0)),
        Arg(kwargs, "event_consum", Array([]))))
  }

  function EncodeProduct(p: Product): (r: Json)
    ensures r.Object? && r.fields.Keys == ProductKeys
  {
    Object(map["default_name" := p.defaultName, "name" := p.name, "num_gen" := p.numGen,
               "event_gen" := p.eventGen, "num_consum" := p.numConsum, "event_consum" := p.eventConsum])
  }

  function DecodeProduct(j: Json): Outcome<Product>
  {
    if j.Object? then NewProduct(j.fields) else Raised("TypeError")
  }

  /** Every product survives the JSON round trip unchanged. */
  lemma ProductRoundTrip(p: Product)
    ensures DecodeProduct(EncodeProduct(p)) == Ok(p)
  {
    assert !Undeclared(EncodeProduct(p).fields, ProductKeys);
  }

  /** The counts are not tied to the lists: any count is stored beside empty lists. */
  lemma ProductCountsUntied(n: Json, gen: Json, consum: Json)
    ensures NewProduct(map["default_name" := n, "num_gen" := gen, "num_consum" := consum]) ==
            Ok(Product(n, Str(""), gen, Array([]), consum, Array([])))
  {
    assert !Undeclared(map["default_name" := n, "num_gen" := gen, "num_consum" := consum], ProductKeys);
  }

  // ----------------------------------------------------------------- Event

  datatype Event = Event(defaultName: Json, name: Json, kind: Json, isTwosite: Json,
                         covBefore: Json, covAfter: Json, bepPara: Json)

  const EventKeys: set<string> := {"default_name", "name", "type", "is_twosite", "cov_before", "cov_after", "BEP_para"}

  /** `Event.__post_init__`: empty coverages become [0, 0], an empty `BEP_para` [0.0, 0.0]. */
  function EventPostInit(e: Event): Event
  {
    e.(covBefore := OrElse(e.covBefore, Array(Copies(Int(0), 2))),
       covAfter := OrElse(e.covAfter, Array(Copies(Int(0), 2))),
       bepPara := OrElse(e.bepPara, Array(Copies(Real(0.0), 2))))
  }

  predicate EventNormal(e: Event)
  {
    Truthy(e.covBefore) && Truthy(e.covAfter) && Truthy(e.bepPara)
  }

  /** `Event(**kwargs)`: the declared fields with their defaults, then `__post_init__`. */
  function NewEvent(kwargs: map<string, Json>): (r: Outcome<Event>)
    ensures r.Raised? <==> "default_name" !in kwargs || Undeclared(kwargs, EventKeys)
    ensures r.Ok? ==> EventNormal(r.value) && r.value.defaultName == kwargs["default_name"]
  {
    if "default_name" !in kwargs || Undeclared(kwargs, EventKeys) then Raised("TypeError")
    else
      Ok(EventPostInit(Event(
        kwargs["default_name"],
        Arg(kwargs, "name", Str("")),
        Arg(kwargs, "type", Str("")),
        Arg(kwargs, "is_twosite", Bool(true)),
        Arg(kwargs, "cov_before", Array([])),
        Arg(kwargs, "cov_after", Array([])),
        Arg(kwargs, "BEP_para", Array([])))))
  }

  function EncodeEvent(e: Event): (r: Json)
    ensures r.Object? && r.fields.Keys == EventKeys
  {
    Object(map["default_name" := e.defaultName, "name" := e.name, "type" := e.kind, "is_twosite" := e.isTwosite,
               "cov_before" := e.covBefore, "cov_after" := e.covAfter, "BEP_para" := e.bepPara])
  }

  function DecodeEvent(j: Json): Outcome<Event>
  {
    if j.Object? then NewEvent(j.fields) else Raised("TypeError")
  }

  lemma EventNormalFixed(e: Event)
    ensures EventNormal(e) ==> EventPostInit(e) == e
    ensures EventNormal(EventPostInit(e))
    ensures EventPostInit(EventPostInit(e)) == EventPostInit(e)
  {
  }

  lemma EventRoundTrip(e: Event)
    ensures DecodeEvent(EncodeEvent(e)) == Ok(EventPostInit(e))
    ensures EventNormal(e) ==> DecodeEvent(EncodeEvent(e)) == Ok(e)
  {
    assert !Undeclared(EncodeEvent(e).fields, EventKeys);
    EventNormalFixed(e);
  }

  /** An event given only its default name: empty name and type, two-site, zero coverages and BEP parameters. */
  lemma EventDefaults(n: Json)
    ensures NewEvent(map["default_name" := n]) ==
            Ok(Event(n, Str(""), Str(""), Bool(true), Array([Int(0), Int(0)]), Array([Int(0), Int(0)]),
                     Array([Real(0.0), Real(0.0)])))
  {
    assert !Undeclared(map["default_name" := n], EventKeys);
    assert Copies(Int(0), 2) == [Int(0), Int(0)];
    assert Copies(Real(0.0), 2) == [Real(0.0), Real(0.0)];
  }
}

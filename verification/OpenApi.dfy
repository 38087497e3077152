/** The types the OpenAPI generator walks, the schemas it writes for them, and
    what each type's schema is, told from the type alone
    (libs/go/arda-openapi/openapi.go). Go types are a finite graph of type ids
    in place of reflection. */
module OpenApi {
  import opened Common

  // ----- Types and schemas

  type TypeId = nat

  datatype Kind =
    | Text
    | Truth
    | Byte
    | Whole
    | Wide
    | Real
    | Any
    | Pointer(elem: TypeId)
    | Slice(elem: TypeId)
    | FixedArray(elem: TypeId)
    | Dict(textKey: bool, elem: TypeId)
    | Struct(fields: seq<Field>)
    | Other

  /** `tag` is the name part of the json tag; `skipped` is the tag "-". */
  datatype Field = Field(name: string, tag: string, skipped: bool, asText: bool, optional: bool,
                         embedded: bool, exported: bool, typ: TypeId)

  datatype Special = Plain | Time | RawMessage | CustomJson | CustomText

  /** A Go type; `name` and `pkg` are "" when it has none. */
  datatype TypeDef = TypeDef(name: string, pkg: string, special: Special, kind: Kind)

  /** What a reference was written for: the response or request schema of a
      type, the list page of an item, the success envelope of a result, or a
      component under a fixed name. */
  datatype Use = AsType(t: TypeId) | AsInput(t: TypeId) | AsPage(item: Schema) | AsEnvelope(result: Schema) | AsGiven

  /** A JSON Schema. Required names are sorted in the output and never repeat,
      so a set says it all. A custom schema is known by the names it refers to
      and by whether it carries the list marker. */
  datatype Schema =
    | Ref(name: string, use: Use)
    | Nullable(inner: Schema)
    | Scalar(text: string)
    | ListOf(items: Schema)
    | DictOf(values: Schema)
    | Object(properties: map<string, Schema>, required: set<string>)
    | Custom(refs: set<string>, list: bool)

  /** The reflected types, the schemas given for types the walk cannot derive,
      and the id of map[string]any, the type every hand-written schema has. */
  datatype Graph = Graph(types: seq<TypeDef>, custom: map<string, Schema>, anyMap: TypeId)

  function Key(def: TypeDef): string { def.pkg + "." + def.name }

  predicate Has(g: Graph, t: TypeId) { t < |g.types| }

  function KindOf(g: Graph, t: TypeId): Kind
    requires Has(g, t)
  {
    g.types[t].kind
  }

  function Fields(g: Graph, t: TypeId): seq<Field>
    requires Has(g, t)
  {
    if KindOf(g, t).Struct? then KindOf(g, t).fields else []
  }

  function NameOf(g: Graph, t: TypeId): string
    requires Has(g, t)
  {
    g.types[t].name
  }

  // ----- Graphs the walk ends on

  /** Rankings of the types that witness that every cycle of the graph passes
      through a named struct in a field that is not embedded. On any other graph
      the program's walk does not end. */
  datatype Measure = Measure(rank: TypeId -> nat, spread: TypeId -> nat, depth: TypeId -> nat)

  predicate Elements(g: Graph, m: Measure, t: TypeId)
    requires Has(g, t)
  {
    match KindOf(g, t)
    case Pointer(e) => Has(g, e) && m.rank(e) < m.rank(t)
    case Slice(e) => Has(g, e) && m.rank(e) < m.rank(t)
    case FixedArray(e) => Has(g, e) && m.rank(e) < m.rank(t)
    case Dict(_, e) => Has(g, e) && m.rank(e) < m.rank(t)
    case Struct(_) => NameOf(g, t) == "" ==> m.spread(t) < m.rank(t)
    case _ => true
  }

  ghost predicate Grounded(g: Graph, m: Measure) {
    && Has(g, g.anyMap) && KindOf(g, g.anyMap).Dict?
    && (forall t :: Has(g, t) ==> Elements(g, m, t))
  }

  /** The type behind any number of pointers. */
  ghost function Deref(g: Graph, m: Measure, t: TypeId): (d: TypeId)
    requires Grounded(g, m) && Has(g, t)
    ensures Has(g, d) && !KindOf(g, d).Pointer? && m.rank(d) <= m.rank(t)
    ensures d == t <==> !KindOf(g, t).Pointer?
    decreases m.rank(t)
  {
    if KindOf(g, t).Pointer? then
      assert Elements(g, m, t);
      Deref(g, m, KindOf(g, t).elem)
    else t
  }

  /** An embedded struct without a tag name lends its fields to its owner. */
  ghost predicate Flattened(g: Graph, m: Measure, f: Field)
    requires Grounded(g, m) && Has(g, f.typ)
  {
    f.embedded && f.tag == "" && KindOf(g, Deref(g, m, f.typ)).Struct?
  }

  ghost predicate GroundedField(g: Graph, m: Measure, t: TypeId, f: Field)
    requires Grounded(g, m)
  {
    && Has(g, f.typ)
    && if Flattened(g, m, f) then
         var e := Deref(g, m, f.typ);
         m.spread(e) <= m.spread(t) && m.depth(e) < m.depth(t)
       else m.rank(f.typ) < m.spread(t)
  }

  ghost predicate Walkable(g: Graph, m: Measure) {
    && Grounded(g, m)
    && forall t, i :: Has(g, t) && 0 <= i < |Fields(g, t)| ==> GroundedField(g, m, t, Fields(g, t)[i])
  }

  // ----- What the schema of a type is

  datatype Bag = Bag(properties: map<string, Schema>, required: set<string>)

  const EMPTY := Bag(map[], {})

  function JsonName(f: Field): string { if f.tag == "" then f.name else f.tag }

  /** The schema of a field or element type, None for a type that has none. */
  ghost function Shape(g: Graph, m: Measure, t: TypeId): Option<Schema>
    requires Walkable(g, m) && Has(g, t)
    decreases m.rank(t), 0, 0, 3
  {
    match ValueShape(g, m, Deref(g, m, t))
    case None => None
    case Some(s) => Some(if KindOf(g, t).Pointer? then Nullable(s) else s)
  }

  /** A named struct is only referred to, so this looks no further than it. */
  ghost function ValueShape(g: Graph, m: Measure, t: TypeId): Option<Schema>
    requires Walkable(g, m) && Has(g, t)
    decreases m.rank(t), 0, 0, 2
  {
    var def := g.types[t];
    assert Elements(g, m, t);
    if def.name != "" && def.pkg != "" && Key(def) in g.custom then Some(g.custom[Key(def)])
    else match def.special
      case Time => Some(Scalar("date-time"))
      case RawMessage => Some(Scalar("any"))
      case CustomJson => None
      case CustomText => None
      case Plain => KindShape(g, m, t)
  }

  ghost function KindShape(g: Graph, m: Measure, t: TypeId): Option<Schema>
    requires Walkable(g, m) && Has(g, t)
    decreases m.rank(t), 0, 0, 1
  {
    assert Elements(g, m, t);
    match KindOf(g, t)
    case Text => Some(Scalar("string"))
    case Truth => Some(Scalar("boolean"))
    case Byte => Some(Scalar("integer"))
    case Whole => Some(Scalar("integer"))
    case Wide => Some(Scalar("int64"))
    case Real => Some(Scalar("number"))
    case Any => Some(Scalar("any"))
    case Slice(e) => ItemsShape(g, m, t, e)
    case FixedArray(e) => ItemsShape(g, m, t, e)
    case Dict(textKey, e) =>
      if !textKey then None
      else (match Shape(g, m, e) case None => None case Some(s) => Some(DictOf(s)))
    case Struct(_) => if NameOf(g, t) == "" then StructShape(g, m, t) else Some(Ref(NameOf(g, t), AsType(t)))
    case _ => None
  }

  ghost function ItemsShape(g: Graph, m: Measure, t: TypeId, e: TypeId): Option<Schema>
    requires Walkable(g, m) && Has(g, t) && Has(g, e) && m.rank(e) < m.rank(t)
    decreases m.rank(t), 0, 0, 0
  {
    if KindOf(g, e).Byte? then Some(Scalar("base64"))
    else match Shape(g, m, e) case None => None case Some(s) => Some(ListOf(s))
  }

  /** The object schema of a struct, its embedded structs flattened into it. */
  ghost function StructShape(g: Graph, m: Measure, t: TypeId): Option<Schema>
    requires Walkable(g, m) && Has(g, t)
    decreases m.spread(t), m.depth(t), |Fields(g, t)|, 2
  {
    match Gather(g, m, t, 0, EMPTY)
    case None => None
    case Some(bag) => Some(Object(bag.properties, bag.required))
  }

  /** The bag after the fields from `i` on, None when a field has no schema or
      a JSON name comes twice. */
  ghost function Gather(g: Graph, m: Measure, t: TypeId, i: nat, bag: Bag): Option<Bag>
    requires Walkable(g, m) && Has(g, t) && i <= |Fields(g, t)|
    decreases m.spread(t), m.depth(t), |Fields(g, t)| - i, 1
  {
    if i == |Fields(g, t)| then Some(bag)
    else match GatherField(g, m, t, i, bag)
      case None => None
      case Some(next) => Gather(g, m, t, i + 1, next)
  }

  ghost function GatherField(g: Graph, m: Measure, t: TypeId, i: nat, bag: Bag): Option<Bag>
    requires Walkable(g, m) && Has(g, t) && i < |Fields(g, t)|
    decreases m.spread(t), m.depth(t), |Fields(g, t)| - i, 0
  {
    var f := Fields(g, t)[i];
    assert GroundedField(g, m, t, f);
    if f.skipped then Some(bag)
    else if Flattened(g, m, f) then Gather(g, m, Deref(g, m, f.typ), 0, bag)
    else if !f.exported then Some(bag)
    else if JsonName(f) in bag.properties then None
    else match FieldShape(g, m, f)
      case None => None
      case Some(s) => Some(Put(bag, f, s))
  }

  function Put(bag: Bag, f: Field, s: Schema): Bag {
    Bag(bag.properties[JsonName(f) := s], if f.optional then bag.required else bag.required + {JsonName(f)})
  }

  /** A nil slice or map is written as null. */
  predicate NilIsNull(g: Graph, t: TypeId)
    requires Has(g, t)
  {
    (KindOf(g, t).Slice? || KindOf(g, t).Dict?) && !g.types[t].special.RawMessage?
  }

  ghost function FieldShape(g: Graph, m: Measure, f: Field): Option<Schema>
    requires Walkable(g, m) && Has(g, f.typ)
    decreases m.rank(f.typ), 0, 0, 4
  {
    if f.asText then Some(Scalar("string"))
    else match Shape(g, m, f.typ)
      case None => None
      case Some(s) => Some(if NilIsNull(g, f.typ) then Nullable(s) else s)
  }

  /** The schema a component gets for its type. */
  ghost function Body(g: Graph, m: Measure, t: TypeId): Option<Schema>
    requires Walkable(g, m) && Has(g, t)
  {
    if KindOf(g, t).Dict? then ValueShape(g, m, t) else StructShape(g, m, t)
  }

  // ----- Flattening first

  /** The fields that reach the schema, embedded structs replaced by theirs. */
  ghost function FlatFields(g: Graph, m: Measure, t: TypeId, i: nat): seq<Field>
    requires Walkable(g, m) && Has(g, t) && i <= |Fields(g, t)|
    decreases m.spread(t), m.depth(t), |Fields(g, t)| - i
  {
    if i == |Fields(g, t)| then []
    else
      var f := Fields(g, t)[i];
      assert GroundedField(g, m, t, f);
      (if f.skipped then []
       else if Flattened(g, m, f) then FlatFields(g, m, Deref(g, m, f.typ), 0)
       else if f.exported then [f]
       else [])
      + FlatFields(g, m, t, i + 1)
  }

  ghost predicate AllHad(g: Graph, fs: seq<Field>) { forall i :: 0 <= i < |fs| ==> Has(g, fs[i].typ) }

  lemma {:induction false} FlatHad(g: Graph, m: Measure, t: TypeId, i: nat)
    requires Walkable(g, m) && Has(g, t) && i <= |Fields(g, t)|
    ensures AllHad(g, FlatFields(g, m, t, i))
    decreases m.spread(t), m.depth(t), |Fields(g, t)| - i
  {
    if i < |Fields(g, t)| {
      var f := Fields(g, t)[i];
      assert GroundedField(g, m, t, f);
      FlatHad(g, m, t, i + 1);
      if !f.skipped && Flattened(g, m, f) { FlatHad(g, m, Deref(g, m, f.typ), 0); }
    }
  }

  /** Filing a list of fields one after the other. */
  ghost function File(g: Graph, m: Measure, fs: seq<Field>, bag: Bag): Option<Bag>
    requires Walkable(g, m) && AllHad(g, fs)
    decreases |fs|
  {
    if fs == [] then Some(bag)
    else if JsonName(fs[0]) in bag.properties then None
    else match FieldShape(g, m, fs[0])
      case None => None
      case Some(s) => File(g, m, fs[1..], Put(bag, fs[0], s))
  }

  lemma {:induction false} FileAppend(g: Graph, m: Measure, a: seq<Field>, b: seq<Field>, bag: Bag)
    requires Walkable(g, m) && AllHad(g, a) && AllHad(g, b)
    ensures AllHad(g, a + b)
    ensures File(g, m, a + b, bag)
         == match File(g, m, a, bag) case None => None case Some(next) => File(g, m, b, next)
    decreases |a|
  {
    hide Walkable, FieldShape;
    if a == [] {
      assert a + b == b;
    } else {
      assert (a + b)[0] == a[0] && (a + b)[1..] == a[1..] + b;
      if JsonName(a[0]) !in bag.properties && FieldShape(g, m, a[0]).Some? {
        FileAppend(g, m, a[1..], b, Put(bag, a[0], FieldShape(g, m, a[0]).value));
      }
    }
  }

  /** Walking into embedded structs equals flattening first. */
  lemma {:induction false} GatherIsFile(g: Graph, m: Measure, t: TypeId, i: nat, bag: Bag)
    requires Walkable(g, m) && Has(g, t) && i <= |Fields(g, t)|
    ensures AllHad(g, FlatFields(g, m, t, i))
    ensures Gather(g, m, t, i, bag) == File(g, m, FlatFields(g, m, t, i), bag)
    decreases m.spread(t), m.depth(t), |Fields(g, t)| - i
  {
    FlatHad(g, m, t, i);
    if i < |Fields(g, t)| {
      var f := Fields(g, t)[i];
      assert GroundedField(g, m, t, f);
      FlatHad(g, m, t, i + 1);
      var rest := FlatFields(g, m, t, i + 1);
      var next := GatherField(g, m, t, i, bag);
      if next.Some? { GatherIsFile(g, m, t, i + 1, next.value); }
      if f.skipped {
        assert [] + rest == rest;
      } else if Flattened(g, m, f) {
        var e := Deref(g, m, f.typ);
        GatherIsFile(g, m, e, 0, bag);
        FileAppend(g, m, FlatFields(g, m, e, 0), rest, bag);
      } else if f.exported {
        FileOne(g, m, f, rest, bag);
      } else {
        assert [] + rest == rest;
      }
    }
  }

  lemma FileOne(g: Graph, m: Measure, f: Field, rest: seq<Field>, bag: Bag)
    requires Walkable(g, m) && Has(g, f.typ) && AllHad(g, rest)
    ensures AllHad(g, [f] + rest)
    ensures File(g, m, [f] + rest, bag)
         == if JsonName(f) in bag.properties || FieldShape(g, m, f).None? then None
            else File(g, m, rest, Put(bag, f, FieldShape(g, m, f).value))
  {
    hide Walkable, FieldShape;
    assert ([f] + rest)[1..] == rest;
  }

  /** No two fields share a JSON name. */
  predicate NamesDiffer(fs: seq<Field>) {
    forall i, j :: 0 <= i < j < |fs| ==> JsonName(fs[i]) != JsonName(fs[j])
  }

  /** The bag holds exactly these fields, each under its name with its schema,
      and requires exactly those that are not optional. */
  ghost predicate HoldsFields(g: Graph, m: Measure, fs: seq<Field>, bag: Bag)
    requires Walkable(g, m) && AllHad(g, fs)
  {
    && (forall k :: k in bag.properties <==> exists i :: 0 <= i < |fs| && JsonName(fs[i]) == k)
    && (forall k :: k in bag.required <==> exists i :: 0 <= i < |fs| && JsonName(fs[i]) == k && !fs[i].optional)
    && (forall i :: 0 <= i < |fs| ==>
          JsonName(fs[i]) in bag.properties && Some(bag.properties[JsonName(fs[i])]) == FieldShape(g, m, fs[i]))
  }

  ghost predicate Fileable(g: Graph, m: Measure, fs: seq<Field>)
    requires Walkable(g, m) && AllHad(g, fs)
  {
    NamesDiffer(fs) && forall i :: 0 <= i < |fs| ==> FieldShape(g, m, fs[i]).Some?
  }

  predicate NewName(fs: seq<Field>, f: Field) { forall i :: 0 <= i < |fs| ==> JsonName(fs[i]) != JsonName(f) }

  lemma FileableLast(g: Graph, m: Measure, before: seq<Field>, f: Field)
    requires Walkable(g, m) && AllHad(g, before) && Has(g, f.typ) && AllHad(g, before + [f])
    ensures Fileable(g, m, before + [f])
       <==> Fileable(g, m, before) && NewName(before, f) && FieldShape(g, m, f).Some?
  {
    hide Walkable, FieldShape, JsonName;
    var fs := before + [f];
    assert fs[|before|] == f && forall i :: 0 <= i < |before| ==> fs[i] == before[i];
  }

  lemma HoldsLast(g: Graph, m: Measure, before: seq<Field>, f: Field, bag: Bag, s: Schema)
    requires Walkable(g, m) && AllHad(g, before) && Has(g, f.typ) && AllHad(g, before + [f])
    requires HoldsFields(g, m, before, bag) && FieldShape(g, m, f) == Some(s)
    ensures JsonName(f) in bag.properties <==> !NewName(before, f)
    ensures NewName(before, f) ==> HoldsFields(g, m, before + [f], Put(bag, f, s))
  {
    hide Walkable, FieldShape, JsonName;
    var fs := before + [f];
    assert fs[|before|] == f && forall i :: 0 <= i < |before| ==> fs[i] == before[i];
  }

  lemma {:induction false} FileExactly(g: Graph, m: Measure, fs: seq<Field>)
    requires Walkable(g, m) && AllHad(g, fs)
    ensures File(g, m, fs, EMPTY).Some? <==> Fileable(g, m, fs)
    ensures File(g, m, fs, EMPTY).Some? ==> HoldsFields(g, m, fs, File(g, m, fs, EMPTY).value)
    decreases |fs|
  {
    if fs != [] {
      var n := |fs| - 1;
      var before, f := fs[..n], fs[n];
      FileExactly(g, m, before);
      FileAppend(g, m, before, [f], EMPTY);
      assert fs == before + [f];
      FileLast(g, m, before, f);
    }
  }

  lemma FileLast(g: Graph, m: Measure, before: seq<Field>, f: Field)
    requires Walkable(g, m) && AllHad(g, before) && Has(g, f.typ) && AllHad(g, before + [f])
    requires File(g, m, before, EMPTY).Some? <==> Fileable(g, m, before)
    requires File(g, m, before, EMPTY).Some? ==> HoldsFields(g, m, before, File(g, m, before, EMPTY).value)
    requires File(g, m, before + [f], EMPTY)
          == match File(g, m, before, EMPTY) case None => None case Some(next) => File(g, m, [f], next)
    ensures File(g, m, before + [f], EMPTY).Some? <==> Fileable(g, m, before + [f])
    ensures File(g, m, before + [f], EMPTY).Some? ==>
      HoldsFields(g, m, before + [f], File(g, m, before + [f], EMPTY).value)
  {
    FileNone(g, m);
    hide Walkable, FieldShape, File, JsonName, Fileable, HoldsFields, AllHad, Put;
    FileableLast(g, m, before, f);
    if File(g, m, before, EMPTY).Some? {
      var bag := File(g, m, before, EMPTY).value;
      assert [f] + [] == [f];
      FileOne(g, m, f, [], bag);
      if FieldShape(g, m, f).Some? { HoldsLast(g, m, before, f, bag, FieldShape(g, m, f).value); }
    }
  }

  lemma FileNone(g: Graph, m: Measure)
    requires Walkable(g, m)
    ensures AllHad(g, []) && forall bag :: File(g, m, [], bag) == Some(bag)
  {
  }

  /** A struct has a schema exactly when its flattened fields differ in name and
      each has one; the object then has one property for each of them, with
      that field's schema, and requires exactly those not marked optional. */
  lemma StructExactly(g: Graph, m: Measure, t: TypeId)
    requires Walkable(g, m) && Has(g, t)
    ensures var fs := FlatFields(g, m, t, 0);
      && AllHad(g, fs)
      && (StructShape(g, m, t).Some? <==> Fileable(g, m, fs))
      && (StructShape(g, m, t).Some? ==>
            && StructShape(g, m, t).value.Object?
            && HoldsFields(g, m, fs, Bag(StructShape(g, m, t).value.properties, StructShape(g, m, t).value.required)))
  {
    GatherIsFile(g, m, t, 0, EMPTY);
    FileExactly(g, m, FlatFields(g, m, t, 0));
    hide Walkable, FieldShape, File, Fileable, HoldsFields, FlatFields;
  }

  // ----- What the schemas of types are

  /** A type the document has no schema for. */
  predicate Derived(g: Graph, t: TypeId)
    requires Has(g, t)
  {
    var def := g.types[t];
    def.special.Plain? && !(def.name != "" && def.pkg != "" && (def.pkg + "." + def.name) in g.custom)
  }

  lemma ShapeIsKind(g: Graph, m: Measure, t: TypeId)
    requires Walkable(g, m) && Has(g, t) && Derived(g, t) && !KindOf(g, t).Pointer?
    ensures Shape(g, m, t) == KindShape(g, m, t)
  {
    hide KindShape;
    assert Shape(g, m, t) == ValueShape(g, m, t);
    assert Key(g.types[t]) == g.types[t].pkg + "." + g.types[t].name;
  }

  lemma ItemsShapeIs(g: Graph, m: Measure, t: TypeId, e: TypeId)
    requires Walkable(g, m) && Has(g, t) && Has(g, e) && m.rank(e) < m.rank(t)
    ensures ItemsShape(g, m, t, e) == if KindOf(g, e).Byte? then Some(Scalar("base64"))
                                      else if Shape(g, m, e).None? then None else Some(ListOf(Shape(g, m, e).value))
  {
    hide Shape;
  }

  /** Scalar types have the schemas encoding/json writes them as, whatever they
      are called; other kinds have none. */
  lemma ScalarShapes(g: Graph, m: Measure, t: TypeId)
    requires Walkable(g, m) && Has(g, t) && Derived(g, t)
    ensures KindOf(g, t).Text? ==> Shape(g, m, t) == Some(Scalar("string"))
    ensures KindOf(g, t).Truth? ==> Shape(g, m, t) == Some(Scalar("boolean"))
    ensures KindOf(g, t).Byte? || KindOf(g, t).Whole? ==> Shape(g, m, t) == Some(Scalar("integer"))
    ensures KindOf(g, t).Wide? ==> Shape(g, m, t) == Some(Scalar("int64"))
    ensures KindOf(g, t).Real? ==> Shape(g, m, t) == Some(Scalar("number"))
    ensures KindOf(g, t).Any? ==> Shape(g, m, t) == Some(Scalar("any"))
    ensures KindOf(g, t).Other? ==> Shape(g, m, t) == None
  {
    hide Shape;
    if !KindOf(g, t).Pointer? { ShapeIsKind(g, m, t); }
  }

  /** A type with a schema of its own has that one; of the others times are date
      texts, raw messages anything, and types with their own encoding have none. */
  lemma SpecialShapes(g: Graph, m: Measure, t: TypeId)
    requires Walkable(g, m) && Has(g, t) && !KindOf(g, t).Pointer?
    ensures var def := g.types[t];
      var key := def.pkg + "." + def.name;
      if def.name != "" && def.pkg != "" && key in g.custom then Shape(g, m, t) == Some(g.custom[key])
      else
        && (def.special.Time? ==> Shape(g, m, t) == Some(Scalar("date-time")))
        && (def.special.RawMessage? ==> Shape(g, m, t) == Some(Scalar("any")))
        && (def.special.CustomJson? || def.special.CustomText? ==> Shape(g, m, t) == None)
  {
    hide KindShape;
  }

  /** Lists hold what their elements are, bytes excepted; maps need text keys; a
      named struct is referred to, an unnamed one written out. */
  lemma HoldingShapes(g: Graph, m: Measure, t: TypeId)
    requires Walkable(g, m) && Has(g, t) && Derived(g, t)
    ensures KindOf(g, t).Slice? || KindOf(g, t).FixedArray? ==>
      var e := KindOf(g, t).elem;
      Has(g, e) && Shape(g, m, t) == if KindOf(g, e).Byte? then Some(Scalar("base64"))
                                     else if Shape(g, m, e).None? then None else Some(ListOf(Shape(g, m, e).value))
    ensures KindOf(g, t).Dict? ==>
      var e := KindOf(g, t).elem;
      Has(g, e) && Shape(g, m, t) == if KindOf(g, t).textKey && Shape(g, m, e).Some? then Some(DictOf(Shape(g, m, e).value))
                                     else None
    ensures KindOf(g, t).Struct? ==>
      Shape(g, m, t) == if g.types[t].name == "" then StructShape(g, m, t) else Some(Ref(g.types[t].name, AsType(t)))
  {
    assert Elements(g, m, t);
    if !KindOf(g, t).Pointer? {
      ShapeIsKind(g, m, t);
      hide StructShape, Shape, ItemsShape;
      if KindOf(g, t).Slice? || KindOf(g, t).FixedArray? { ItemsShapeIs(g, m, t, KindOf(g, t).elem); }
    }
  }

  /** A pointer, and a pointer to a pointer, is what it points to or null. */
  lemma PointerShapes(g: Graph, m: Measure, t: TypeId)
    requires Walkable(g, m) && Has(g, t) && KindOf(g, t).Pointer?
    ensures var e := KindOf(g, t).elem;
      && Has(g, e) && Deref(g, m, t) == Deref(g, m, e)
      && (KindOf(g, e).Pointer? ==> Shape(g, m, t) == Shape(g, m, e))
      && (!KindOf(g, e).Pointer? ==>
            Shape(g, m, t) == if Shape(g, m, e).None? then None else Some(Nullable(Shape(g, m, e).value)))
  {
    assert Elements(g, m, t);
    hide ValueShape;
  }

  /** A field marked as text is a string; a slice or map may be null. */
  lemma FieldShapes(g: Graph, m: Measure, f: Field)
    requires Walkable(g, m) && Has(g, f.typ)
    ensures f.asText ==> FieldShape(g, m, f) == Some(Scalar("string"))
    ensures !f.asText ==>
      FieldShape(g, m, f)
      == if Shape(g, m, f.typ).None? then None
         else if (KindOf(g, f.typ).Slice? || KindOf(g, f.typ).Dict?) && !g.types[f.typ].special.RawMessage?
              then Some(Nullable(Shape(g, m, f.typ).value))
         else Shape(g, m, f.typ)
  {
    hide Shape;
  }

  /** Which fields reach a struct's schema: its own exported ones, and those of
      the structs it embeds without a name; skipped fields never do. */
  lemma {:induction false} FlatExactly(g: Graph, m: Measure, t: TypeId, i: nat, f: Field)
    requires Walkable(g, m) && Has(g, t) && i <= |Fields(g, t)|
    ensures f in FlatFields(g, m, t, i) <==> exists j :: i <= j < |Fields(g, t)| && Lends(g, m, Fields(g, t)[j], f)
    decreases |Fields(g, t)| - i
  {
    hide FlatFields, Walkable, Lends;
    if i < |Fields(g, t)| {
      FlatExactly(g, m, t, i + 1, f);
      FlatStep(g, m, t, i, f);
    } else {
      FlatEnd(g, m, t, i, f);
    }
  }

  lemma FlatEnd(g: Graph, m: Measure, t: TypeId, i: nat, f: Field)
    requires Walkable(g, m) && Has(g, t) && i == |Fields(g, t)|
    ensures f !in FlatFields(g, m, t, i)
  {}

  lemma FlatStep(g: Graph, m: Measure, t: TypeId, i: nat, f: Field)
    requires Walkable(g, m) && Has(g, t) && i < |Fields(g, t)|
    ensures f in FlatFields(g, m, t, i) <==> Lends(g, m, Fields(g, t)[i], f) || f in FlatFields(g, m, t, i + 1)
  {
    var h := Fields(g, t)[i];
    assert GroundedField(g, m, t, h);
  }

  /** What one field lends to the schema of its struct. */
  ghost predicate Lends(g: Graph, m: Measure, h: Field, f: Field)
    requires Walkable(g, m)
  {
    && Has(g, h.typ) && !h.skipped
    && if h.embedded && h.tag == "" && KindOf(g, Deref(g, m, h.typ)).Struct?
       then f in FlatFields(g, m, Deref(g, m, h.typ), 0)
       else h.exported && f == h
  }

  /** A property is called after the tag, or after the field. */
  lemma JsonNames(f: Field)
    ensures f.tag != "" ==> JsonName(f) == f.tag
    ensures f.tag == "" ==> JsonName(f) == f.name
  {}
}

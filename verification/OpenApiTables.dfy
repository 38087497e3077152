/** The name tables of the OpenAPI generator, what a walk may do to them, and
    what a finished document promises of every reference
    (libs/go/arda-openapi/openapi.go). */
module OpenApiTables {
  import opened Common
  import opened OpenApi

  /** A component schema and where it came from. The program keeps the origin of
      most components as the x-go-type or x-arda-list key. */
  datatype Component =
    | Standard(schema: Schema)
    | Supplied(schema: Schema)
    | OfType(schema: Schema, source: TypeId)
    | Input(schema: Schema, source: TypeId)
    | Page(schema: Schema)
    | Envelope(schema: Schema)

  /** The generator's three tables, and every name ever used for a list page or
      a success envelope with what it was to wrap. */
  datatype Tables = Tables(schemas: map<string, Component>, owners: map<string, TypeId>,
                           inputs: map<string, TypeId>, pages: set<(string, Schema)>,
                           envelopes: set<(string, Schema)>)

  const TEXT := Scalar("string")

  const STANDARD: map<string, Schema> := map[
    "ResponseMeta" := Object(map["request_id" := TEXT, "trace_id" := TEXT, "timestamp" := Scalar("date-time")],
                             {"request_id"}),
    "ProblemError" := Object(map["code" := TEXT, "message" := TEXT, "field" := TEXT, "path" := TEXT], {"message"}),
    "Problem" := Object(map["type" := Scalar("uri-reference"), "title" := TEXT, "status" := Scalar("integer"),
                            "code" := TEXT, "message" := TEXT, "errors" := ListOf(Ref("ProblemError", AsGiven)),
                            "request_id" := TEXT, "trace_id" := TEXT],
                        {"type", "title", "status", "code", "message"})
  ]

  function EnvelopeOf(result: Schema): Schema {
    Object(map["result" := result, "success" := Scalar("true"), "errors" := Scalar("empty"),
               "messages" := ListOf(TEXT), "meta" := Ref("ResponseMeta", AsGiven)],
           {"result", "success", "errors", "messages", "meta"})
  }

  function PageOf(item: Schema): Schema {
    Object(map["items" := ListOf(item), "page" := Scalar("integer"), "per_page" := Scalar("integer"),
               "total" := Scalar("integer")],
           {"items", "page", "per_page", "total"})
  }

  /** A request schema requires nothing. */
  function Lenient(s: Schema): Schema { if s.Object? then s.(required := {}) else s }

  /** An object with the properties of a struct's own schema, none of which it
      requires. */
  ghost predicate RequiresNothing(g: Graph, m: Measure, s: Schema, t: TypeId)
    requires Walkable(g, m)
  {
    && Has(g, t) && StructShape(g, m, t).Some? && StructShape(g, m, t).value.Object?
    && s.Object? && s.required == {} && s.properties == StructShape(g, m, t).value.properties
  }

  lemma LenientRequiresNothing(g: Graph, m: Measure, t: TypeId)
    requires Walkable(g, m) && Has(g, t) && StructShape(g, m, t).Some?
    ensures RequiresNothing(g, m, Lenient(StructShape(g, m, t).value), t)
  {
    hide Walkable;
  }

  /** The envelope of a result, whole. */
  lemma EnvelopeExactly(result: Schema)
    ensures var e := EnvelopeOf(result);
      && e.Object? && e.properties.Keys == e.required == {"result", "success", "errors", "messages", "meta"}
      && e.properties["result"] == result
      && e.properties["success"] == Scalar("true") && e.properties["errors"] == Scalar("empty")
      && e.properties["messages"] == ListOf(Scalar("string"))
      && e.properties["meta"] == Ref("ResponseMeta", AsGiven)
  {}

  /** A page of items, whole. */
  lemma PageExactly(item: Schema)
    ensures var p := PageOf(item);
      && p.Object? && p.properties.Keys == p.required == {"items", "page", "per_page", "total"}
      && p.properties["items"] == ListOf(item) && p.properties["page"] == Scalar("integer")
      && p.properties["per_page"] == Scalar("integer") && p.properties["total"] == Scalar("integer")
  {}

  /** What the standard components require. */
  lemma StandardExactly()
    ensures STANDARD.Keys == {"ResponseMeta", "ProblemError", "Problem"}
    ensures forall n :: n in STANDARD ==> STANDARD[n].Object? && STANDARD[n].required <= STANDARD[n].properties.Keys
    ensures STANDARD["ResponseMeta"].required == {"request_id"}
    ensures STANDARD["ResponseMeta"].properties.Keys == {"request_id", "trace_id", "timestamp"}
    ensures STANDARD["ProblemError"].required == {"message"}
    ensures STANDARD["ProblemError"].properties.Keys == {"code", "message", "field", "path"}
    ensures STANDARD["Problem"].required == {"type", "title", "status", "code", "message"}
    ensures STANDARD["Problem"].properties.Keys
         == {"type", "title", "status", "code", "message", "errors", "request_id", "trace_id"}
  {}

  /** The list marker of an existing component. */
  predicate IsList(c: Component) { c.Page? || (c.schema.Custom? && c.schema.list) }

  // ----- References

  /** The name is in the table of what it was written for. */
  predicate Known(name: string, use: Use, a: Tables) {
    match use
    case AsType(t) => name in a.owners && a.owners[name] == t
    case AsInput(t) => name in a.inputs && a.inputs[name] == t
    case AsPage(item) => (name, item) in a.pages
    case AsEnvelope(result) => (name, result) in a.envelopes
    case AsGiven => name in a.schemas
  }

  /** Every reference inside the schema is known. */
  predicate Resolved(s: Schema, a: Tables)
    decreases s
  {
    match s
    case Ref(name, use) => Known(name, use, a)
    case Nullable(inner) => Resolved(inner, a)
    case Scalar(_) => true
    case ListOf(items) => Resolved(items, a)
    case DictOf(values) => Resolved(values, a)
    case Object(properties, _) => forall k :: k in properties ==> Resolved(properties[k], a)
    case Custom(refs, _) => refs <= a.schemas.Keys
  }

  predicate Closed(a: Tables) {
    forall n :: n in a.schemas ==> Resolved(a.schemas[n].schema, a)
  }

  // ----- What a walk does

  /** The tables only grow from `a` to `b`. */
  predicate Keeps(a: Tables, b: Tables) {
    && a.schemas.Keys <= b.schemas.Keys
    && (forall n :: n in a.owners ==> n in b.owners && b.owners[n] == a.owners[n])
    && (forall n :: n in a.inputs ==> n in b.inputs && b.inputs[n] == a.inputs[n])
    && a.pages <= b.pages
    && a.envelopes <= b.envelopes
  }

  /** A component generated from its owner. */
  ghost predicate Built(g: Graph, m: Measure, a: Tables, n: string)
    requires Walkable(g, m)
  {
    && n in a.owners && n in a.schemas && Has(g, a.owners[n])
    && Body(g, m, a.owners[n]).Some?
    && a.schemas[n] == OfType(Body(g, m, a.owners[n]).value, a.owners[n])
  }

  /** A successful walk owns new names, gives each the schema of its type, and
      touches nothing else. */
  ghost predicate Grew(g: Graph, m: Measure, a: Tables, b: Tables)
    requires Walkable(g, m)
  {
    && Keeps(a, b)
    && b.inputs == a.inputs && b.pages == a.pages && b.envelopes == a.envelopes
    && (forall n :: n in b.owners && n !in a.owners ==> Built(g, m, b, n))
    && (forall n :: n in a.schemas && (n in a.owners || n !in b.owners) ==> b.schemas[n] == a.schemas[n])
    && (forall n :: n in b.schemas && n !in a.schemas ==> n in b.owners && n !in a.owners)
  }

  lemma {:induction false} ResolvedKept(s: Schema, a: Tables, b: Tables)
    requires Resolved(s, a) && Keeps(a, b)
    ensures Resolved(s, b)
    decreases s
  {
    match s
    case Nullable(inner) => ResolvedKept(inner, a, b);
    case ListOf(items) => ResolvedKept(items, a, b);
    case DictOf(values) => ResolvedKept(values, a, b);
    case Object(properties, _) =>
      forall k | k in properties ensures Resolved(properties[k], b) { ResolvedKept(properties[k], a, b); }
    case _ =>
  }

  lemma GrewReflexive(g: Graph, m: Measure, a: Tables)
    requires Walkable(g, m)
    ensures Grew(g, m, a, a)
  {
  }

  lemma GrewTransitive(g: Graph, m: Measure, a: Tables, b: Tables, c: Tables)
    requires Walkable(g, m) && Grew(g, m, a, b) && Grew(g, m, b, c)
    ensures Grew(g, m, a, c)
  {
    hide Walkable, Body;
    forall n | n in c.owners && n !in a.owners ensures Built(g, m, c, n) {
      if n in b.owners { assert Built(g, m, b, n); }
    }
  }

  /** The step that owns a name, walks its type and files the component. */
  lemma OwnAndFile(g: Graph, m: Measure, a: Tables, b: Tables, name: string, t: TypeId, body: Schema)
    requires Walkable(g, m) && Has(g, t) && name !in a.owners
    requires Closed(b) && Resolved(body, b) && Some(body) == Body(g, m, t)
    requires Grew(g, m, a.(owners := a.owners[name := t]), b)
    ensures var c := b.(schemas := b.schemas[name := OfType(body, t)]);
      && Grew(g, m, a, c) && Closed(c) && Known(name, AsType(t), c)
  {
    var c := b.(schemas := b.schemas[name := OfType(body, t)]);
    hide Walkable, Body, Closed, Resolved;
    FilingCloses(b, name, OfType(body, t));
    forall n | n in c.owners && n !in a.owners ensures Built(g, m, c, n) {
      if n != name { assert Built(g, m, b, n); }
    }
  }

  /** Filing a component whose references are known keeps the tables closed. */
  lemma FilingCloses(a: Tables, name: string, c: Component)
    requires Closed(a) && Resolved(c.schema, a)
    ensures Closed(a.(schemas := a.schemas[name := c]))
  {
    var b := a.(schemas := a.schemas[name := c]);
    forall n | n in b.schemas ensures Resolved(b.schemas[n].schema, b) {
      ResolvedKept(if n == name then c.schema else a.schemas[n].schema, a, b);
    }
  }

  // ----- Between operations

  /** Every component is vouched for by the table of its origin. */
  ghost predicate Rooted(g: Graph, m: Measure, given: map<string, Schema>, a: Tables)
    requires Walkable(g, m)
  {
    forall n :: n in a.schemas ==> Vouched(g, m, given, a, n)
  }

  ghost predicate Vouched(g: Graph, m: Measure, given: map<string, Schema>, a: Tables, n: string)
    requires Walkable(g, m) && n in a.schemas
  {
    match a.schemas[n]
    case Standard(s) => n in STANDARD && s == STANDARD[n]
    case Supplied(s) => n in given && s == given[n] && n in a.owners && a.owners[n] == g.anyMap
    case OfType(_, _) => Built(g, m, a, n)
    case Input(s, t) =>
      && n in a.inputs && a.inputs[n] == t && Has(g, t)
      && StructShape(g, m, t).Some? && s == Lenient(StructShape(g, m, t).value)
    case Page(s) => exists item :: (n, item) in a.pages && s == PageOf(item)
    case Envelope(s) => exists result :: (n, result) in a.envelopes && s == EnvelopeOf(result)
  }

  /** Every request component of rooted tables requires nothing. */
  lemma InputsRequireNothing(g: Graph, m: Measure, given: map<string, Schema>, a: Tables)
    requires Walkable(g, m) && Rooted(g, m, given, a)
    ensures forall n :: n in a.schemas && a.schemas[n].Input? ==>
      RequiresNothing(g, m, a.schemas[n].schema, a.schemas[n].source)
  {
    hide Walkable, Body, StructShape, EnvelopeOf, PageOf, Lenient, Built, RequiresNothing;
    forall n | n in a.schemas && a.schemas[n].Input? ensures RequiresNothing(g, m, a.schemas[n].schema, a.schemas[n].source) {
      assert Vouched(g, m, given, a, n);
      LenientRequiresNothing(g, m, a.schemas[n].source);
    }
  }

  /** Every name in use has a component. */
  predicate Filled(a: Tables) {
    && STANDARD.Keys + a.owners.Keys + a.inputs.Keys <= a.schemas.Keys
    && (forall p :: p in a.pages ==> p.0 in a.schemas)
    && (forall p :: p in a.envelopes ==> p.0 in a.schemas)
  }

  /** Every owner has a schema whose references are known, even if its component
      was replaced; the hand-written components are owned by map[string]any. */
  ghost predicate OwnersWalked(g: Graph, m: Measure, given: map<string, Schema>, a: Tables)
    requires Walkable(g, m)
  {
    && (forall n :: n in given ==> n in a.owners && a.owners[n] == g.anyMap)
    && (forall n :: n in a.owners && n !in given ==> WalkedType(g, m, a, a.owners[n]))
  }

  ghost predicate WalkedType(g: Graph, m: Measure, a: Tables, t: TypeId)
    requires Walkable(g, m)
  {
    Has(g, t) && Body(g, m, t).Some? && Resolved(Body(g, m, t).value, a)
  }

  ghost predicate InputsWalked(g: Graph, m: Measure, a: Tables)
    requires Walkable(g, m)
  {
    forall n :: n in a.inputs ==>
      && Has(g, a.inputs[n])
      && StructShape(g, m, a.inputs[n]).Some? && Resolved(StructShape(g, m, a.inputs[n]).value, a)
  }

  ghost predicate Sound(g: Graph, m: Measure, given: map<string, Schema>, a: Tables)
    requires Walkable(g, m)
  {
    Closed(a) && Filled(a) && Rooted(g, m, given, a) && OwnersWalked(g, m, given, a) && InputsWalked(g, m, a)
  }

  lemma OwnersStayWalked(g: Graph, m: Measure, given: map<string, Schema>, a: Tables, b: Tables)
    requires Walkable(g, m) && Grew(g, m, a, b) && Closed(b) && OwnersWalked(g, m, given, a)
    ensures OwnersWalked(g, m, given, b)
  {
    hide Walkable, Body, Resolved;
    forall n | n in b.owners && n !in given ensures WalkedType(g, m, b, b.owners[n]) {
      if n in a.owners {
        ResolvedKept(Body(g, m, a.owners[n]).value, a, b);
      } else {
        assert Built(g, m, b, n);
      }
    }
  }

  lemma OwnersKeptWalked(g: Graph, m: Measure, given: map<string, Schema>, a: Tables, b: Tables)
    requires Walkable(g, m) && Keeps(a, b) && b.owners == a.owners && OwnersWalked(g, m, given, a)
    ensures OwnersWalked(g, m, given, b)
  {
    hide Walkable, Body, Resolved, Keeps;
    forall n | n in b.owners && n !in given ensures WalkedType(g, m, b, b.owners[n]) {
      ResolvedKept(Body(g, m, a.owners[n]).value, a, b);
    }
  }

  lemma InputsStayWalked(g: Graph, m: Measure, a: Tables, b: Tables)
    requires Walkable(g, m) && Keeps(a, b) && b.inputs == a.inputs && InputsWalked(g, m, a)
    ensures InputsWalked(g, m, b)
  {
    hide Walkable, StructShape, Resolved, Keeps;
    forall n | n in b.inputs
      ensures Has(g, b.inputs[n]) && StructShape(g, m, b.inputs[n]).Some? && Resolved(StructShape(g, m, b.inputs[n]).value, b)
    {
      ResolvedKept(StructShape(g, m, a.inputs[n]).value, a, b);
    }
  }

  lemma GrewSound(g: Graph, m: Measure, given: map<string, Schema>, a: Tables, b: Tables)
    requires Walkable(g, m) && Grew(g, m, a, b) && Rooted(g, m, given, a)
    ensures Rooted(g, m, given, b)
    ensures Filled(a) ==> Filled(b)
  {
    hide Walkable, Body, StructShape, EnvelopeOf, PageOf, Lenient;
    forall n | n in b.schemas ensures Vouched(g, m, given, b, n) {
      if n in b.owners && n !in a.owners {
        assert Built(g, m, b, n);
      } else {
        assert Vouched(g, m, given, a, n);
      }
    }
    forall n | n in b.owners ensures Filled(a) ==> n in b.schemas {
      if n !in a.owners { assert Built(g, m, b, n); }
    }
  }

  /** The reference occurs somewhere in the schema. */
  predicate Mentions(s: Schema, name: string, use: Use)
    decreases s
  {
    match s
    case Ref(n, u) => n == name && u == use
    case Nullable(inner) => Mentions(inner, name, use)
    case Scalar(_) => false
    case ListOf(items) => Mentions(items, name, use)
    case DictOf(values) => Mentions(values, name, use)
    case Object(properties, _) => exists k :: k in properties && Mentions(properties[k], name, use)
    case Custom(refs, _) => name in refs && use == AsGiven
  }

  lemma {:induction false} MentionedIsKnown(s: Schema, a: Tables, name: string, use: Use)
    requires Resolved(s, a) && Mentions(s, name, use)
    ensures Known(name, use, a)
    decreases s
  {
    match s
    case Nullable(inner) => MentionedIsKnown(inner, a, name, use);
    case ListOf(items) => MentionedIsKnown(items, a, name, use);
    case DictOf(values) => MentionedIsKnown(values, a, name, use);
    case Object(properties, _) =>
      var k :| k in properties && Mentions(properties[k], name, use);
      MentionedIsKnown(properties[k], a, name, use);
    case _ =>
  }

  /** In a finished document every reference names a defined component. */
  lemma EveryRefIsDefined(s: Schema, a: Tables, name: string, use: Use)
    requires Filled(a) && Resolved(s, a) && Mentions(s, name, use)
    ensures name in a.schemas
  {
    MentionedIsKnown(s, a, name, use);
  }

  // ----- When names are shared

  /** Some part of the document counts on the name for this use. */
  predicate Claimed(a: Tables, name: string, use: Use) {
    if use.AsGiven? then name in STANDARD else Known(name, use, a)
  }

  /** The component is the very one the use was written for. */
  ghost predicate Serves(g: Graph, m: Measure, given: map<string, Schema>, name: string, c: Component, use: Use)
    requires Walkable(g, m)
  {
    match use
    case AsType(t) =>
      || (name in given && c == Supplied(given[name]))
      || (Has(g, t) && Body(g, m, t).Some? && c == OfType(Body(g, m, t).value, t))
    case AsInput(t) => Has(g, t) && StructShape(g, m, t).Some? && c == Input(Lenient(StructShape(g, m, t).value), t)
    case AsPage(item) => c == Page(PageOf(item))
    case AsEnvelope(result) => c == Envelope(EnvelopeOf(result))
    case AsGiven => name in STANDARD && c == Standard(STANDARD[name])
  }

  /** Every name leads to the component it was used for, whatever the use. */
  ghost predicate AllServed(g: Graph, m: Measure, given: map<string, Schema>, a: Tables)
    requires Walkable(g, m)
  {
    forall n, use :: Claimed(a, n, use) ==> n in a.schemas && Serves(g, m, given, n, a.schemas[n], use)
  }

  /** No name is used for two things. */
  ghost predicate Unshared(a: Tables) {
    forall n, u, v :: Claimed(a, n, u) && Claimed(a, n, v) ==> u == v
  }

  lemma PageHolds(item: Schema)
    ensures PageOf(item).Object? && "items" in PageOf(item).properties && PageOf(item).properties["items"] == ListOf(item)
  {
  }

  lemma EnvelopeHolds(result: Schema)
    ensures EnvelopeOf(result).Object? && "result" in EnvelopeOf(result).properties
    ensures EnvelopeOf(result).properties["result"] == result
  {
  }

  /** A component serves one use of a name. */
  lemma OneServed(g: Graph, m: Measure, given: map<string, Schema>, a: Tables, n: string, u: Use, v: Use)
    requires Walkable(g, m) && Claimed(a, n, u) && Claimed(a, n, v) && n in a.schemas
    requires Serves(g, m, given, n, a.schemas[n], u) && Serves(g, m, given, n, a.schemas[n], v)
    ensures u == v
  {
    hide Walkable, Body, StructShape, PageOf, EnvelopeOf, Lenient;
    if u.AsPage? && v.AsPage? {
      PageHolds(u.item);
      PageHolds(v.item);
    }
    if u.AsEnvelope? && v.AsEnvelope? {
      EnvelopeHolds(u.result);
      EnvelopeHolds(v.result);
    }
  }

  /** The component of a name serves a use the name was taken for. */
  lemma VouchedServes(g: Graph, m: Measure, given: map<string, Schema>, a: Tables, n: string) returns (use: Use)
    requires Walkable(g, m) && n in a.schemas && Vouched(g, m, given, a, n)
    ensures Claimed(a, n, use) && Serves(g, m, given, n, a.schemas[n], use)
  {
    hide Walkable, Body, StructShape, PageOf, EnvelopeOf, Lenient;
    match a.schemas[n]
    case Standard(_) => use := AsGiven;
    case Supplied(_) => use := AsType(g.anyMap);
    case OfType(_, t) => use := AsType(t);
    case Input(_, t) => use := AsInput(t);
    case Page(s) =>
      var item :| (n, item) in a.pages && s == PageOf(item);
      use := AsPage(item);
    case Envelope(s) =>
      var result :| (n, result) in a.envelopes && s == EnvelopeOf(result);
      use := AsEnvelope(result);
  }

  lemma ClaimedIsFilled(a: Tables, n: string, use: Use)
    requires Filled(a) && Claimed(a, n, use)
    ensures n in a.schemas
  {
  }

  /** One table holds all components and later writers win, so every reference
      leads to the component it was written for exactly when no name is used for
      two things. */
  lemma SharedNamesLose(g: Graph, m: Measure, given: map<string, Schema>, a: Tables)
    requires Walkable(g, m) && Sound(g, m, given, a)
    ensures AllServed(g, m, given, a) <==> Unshared(a)
  {
    hide Walkable, Closed, Filled, OwnersWalked, InputsWalked, Claimed, Serves, Vouched;
    if AllServed(g, m, given, a) {
      forall n, u, v | Claimed(a, n, u) && Claimed(a, n, v) ensures u == v { OneServed(g, m, given, a, n, u, v); }
    }
    if Unshared(a) {
      forall n, use | Claimed(a, n, use) ensures n in a.schemas && Serves(g, m, given, n, a.schemas[n], use) {
        ClaimedIsFilled(a, n, use);
        var other := VouchedServes(g, m, given, a, n);
      }
    }
  }

  /** With no name shared, a reference anywhere in the document leads to the
      component generated from the very type, item or result it was written
      for. */
  lemma EveryRefFindsItsOwn(g: Graph, m: Measure, given: map<string, Schema>, a: Tables, s: Schema, name: string, use: Use)
    requires Walkable(g, m) && Sound(g, m, given, a) && Unshared(a)
    requires Resolved(s, a) && Mentions(s, name, use) && use != AsGiven
    ensures name in a.schemas && Serves(g, m, given, name, a.schemas[name], use)
  {
    SharedNamesLose(g, m, given, a);
    MentionedIsKnown(s, a, name, use);
    hide Walkable, Sound, Unshared, Serves;
    assert Claimed(a, name, use);
  }
}

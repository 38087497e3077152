/** What each step of the OpenAPI generator does to its name tables
    (libs/go/arda-openapi/openapi.go). */
module OpenApiSteps {
  import opened Common
  import opened OpenApi
  import opened OpenApiTables
  import opened OpenApiClaims

  datatype Failure =
    | Clash(name: string, owner: TypeId, other: TypeId)
    | Underivable(t: TypeId)
    | Duplicate(name: string)
    | NameTaken(name: string, owner: TypeId, other: TypeId)
    | Anonymous
    | NotPascal(name: string)
    | NotStruct(t: TypeId)
    | InputClash(name: string)
    | PageTaken(name: string)
    | Reserved(name: string)
    | Refused

  /** The failures of a walk that began with the tables `a`, each with the defect
      of the types behind it. */
  ghost predicate Justified(g: Graph, m: Measure, e: Failure, a: Tables)
    requires Walkable(g, m)
  {
    match e
    case Clash(name, owner, other) =>
      owner != other && IsNamed(g, other, name) && (Known(name, AsType(owner), a) || IsNamed(g, owner, name))
    case Underivable(t) => Has(g, t) && ValueShape(g, m, t).None?
    case Duplicate(_) => exists t :: Has(g, t) && StructShape(g, m, t).None?
    case _ => false
  }

  /** A failure after part of a walk was a failure from its start. */
  lemma JustifiedEarlier(g: Graph, m: Measure, e: Failure, a: Tables, b: Tables, s: Schema)
    requires Walkable(g, m) && Found(g, m, a, b, s) && Keeps(a, b) && Justified(g, m, e, b)
    ensures Justified(g, m, e, a)
  {
    hide Walkable, Reaches, IsNamed, ValueShape, StructShape;
  }

  lemma JustifiedOwning(g: Graph, m: Measure, e: Failure, a: Tables, name: string, t: TypeId)
    requires Walkable(g, m) && IsNamed(g, t, name) && Justified(g, m, e, a.(owners := a.owners[name := t]))
    ensures Justified(g, m, e, a)
  {
    hide Walkable, ValueShape, StructShape;
  }

  /** Tables a walk can start from: closed, with the targets of the supplied
      type schemas in place. */
  predicate Ready(g: Graph, a: Tables) {
    && Closed(a)
    && (forall k :: k in g.custom ==> Resolved(g.custom[k], a))
  }

  /** What a successful walk from `a` to `b` leaves behind. */
  ghost predicate Walked(g: Graph, m: Measure, a: Tables, b: Tables)
    requires Walkable(g, m)
  {
    Grew(g, m, a, b) && Ready(g, b)
  }

  lemma WalkedTransitive(g: Graph, m: Measure, a: Tables, b: Tables, c: Tables)
    requires Walkable(g, m) && Walked(g, m, a, b) && Walked(g, m, b, c)
    ensures Walked(g, m, a, c)
  {
    hide Grew, Ready, Walkable;
    GrewTransitive(g, m, a, b, c);
  }

  lemma OwnersGrow(g: Graph, m: Measure, a: Tables, b: Tables)
    requires Walkable(g, m) && Walked(g, m, a, b)
    ensures a.owners.Keys <= b.owners.Keys && Ready(g, b)
  {
    hide Walkable, Ready;
  }

  lemma WalkedReflexive(g: Graph, m: Measure, a: Tables)
    requires Walkable(g, m) && Ready(g, a)
    ensures Walked(g, m, a, a)
  {
    GrewReflexive(g, m, a);
  }

  lemma ReadyKept(g: Graph, a: Tables, b: Tables)
    requires Ready(g, a) && Keeps(a, b) && Closed(b)
    ensures Ready(g, b)
  {
    hide Keeps, Closed, Resolved;
    forall k | k in g.custom ensures Resolved(g.custom[k], b) { ResolvedKept(g.custom[k], a, b); }
  }

  /** Owning a name leaves the tables ready. */
  lemma ReadyOwning(g: Graph, a: Tables, name: string, t: TypeId)
    requires Ready(g, a) && name !in a.owners
    ensures Ready(g, a.(owners := a.owners[name := t]))
  {
    var b := a.(owners := a.owners[name := t]);
    assert Keeps(a, b);
    hide Keeps, Resolved;
    forall n | n in b.schemas ensures Resolved(b.schemas[n].schema, b) { ResolvedKept(a.schemas[n].schema, a, b); }
    ReadyKept(g, a, b);
  }

  /** A failure justified by the tables part-way, or by the bag. */
  lemma JustifiedSooner(g: Graph, m: Measure, e: Failure, a: Tables, b: Tables, s: Schema)
    requires Walkable(g, m) && Found(g, m, a, b, s) && Keeps(a, b)
    ensures Justified(g, m, e, b) ==> Justified(g, m, e, a)
  {
    if Justified(g, m, e, b) { JustifiedEarlier(g, m, e, a, b, s); }
  }

  lemma GatheredNothing(g: Graph, m: Measure, t: TypeId, a: Tables, e: Failure)
    requires Walkable(g, m) && Has(g, t)
    requires Justified(g, m, e, a) || (e.Duplicate? && Gather(g, m, t, 0, EMPTY).None?)
    ensures Justified(g, m, e, a)
  {
    hide Walkable, Gather, ValueShape;
    if e.Duplicate? && Gather(g, m, t, 0, EMPTY).None? { assert StructShape(g, m, t).None?; }
  }

  lemma BagIsResolved(bag: Bag, a: Tables)
    requires BagResolved(bag, a)
    ensures Resolved(AsObject(bag), a)
  {
  }

  lemma NothingWalked(g: Graph, m: Measure, a: Tables)
    requires Walkable(g, m) && Ready(g, a)
    ensures Walked(g, m, a, a)
    ensures forall s :: Found(g, m, a, a, s)
    ensures forall text :: Resolved(Scalar(text), a)
  {
    WalkedReflexive(g, m, a);
    hide Walkable, Walked, Ready;
  }

  lemma NotDerived(g: Graph, m: Measure, t: TypeId, a: Tables)
    requires Walkable(g, m) && Has(g, t) && ValueShape(g, m, t).None?
    ensures Justified(g, m, Underivable(t), a)
  {
    hide Walkable, ValueShape;
  }

  /** What a schema leads to, a pointer, list or map of it leads to. */
  lemma HeldFound(g: Graph, m: Measure, a: Tables, b: Tables, s: Schema)
    requires Walkable(g, m) && Found(g, m, a, b, s) && Resolved(s, b)
    ensures Found(g, m, a, b, Nullable(s)) && Found(g, m, a, b, ListOf(s)) && Found(g, m, a, b, DictOf(s))
    ensures Resolved(Nullable(s), b) && Resolved(ListOf(s), b) && Resolved(DictOf(s), b)
  {
    hide Walkable, Found;
    FoundIn(g, m, a, b, s, Nullable(s));
    FoundIn(g, m, a, b, s, ListOf(s));
    FoundIn(g, m, a, b, s, DictOf(s));
  }

  /** A named struct is owned, walked and filed. */
  lemma NamedAdds(g: Graph, m: Measure, a: Tables, b: Tables, name: string, t: TypeId, body: Schema)
    requires Walkable(g, m) && IsNamed(g, t, name) && name !in a.owners && StructShape(g, m, t) == Some(body)
    requires var mid := a.(owners := a.owners[name := t]); Walked(g, m, mid, b) && Found(g, m, mid, b, body)
    requires Resolved(body, b)
    ensures var c := b.(schemas := b.schemas[name := OfType(body, t)]);
      && Walked(g, m, a, c) && Found(g, m, a, c, Ref(name, AsType(t))) && Resolved(Ref(name, AsType(t)), c)
  {
    var mid := a.(owners := a.owners[name := t]);
    var c := b.(schemas := b.schemas[name := OfType(body, t)]);
    BodyOfStruct(g, m, t);
    OnlyOwners(g, m, mid, b);
    RenamedWalked(g, m, a, b, t, name, body);
    FoundOwned(g, m, a, b, name, t, body);
    assert Found(g, m, a, c, Ref(name, AsType(t))) by { hide Walkable, Reaches, IsNamed; }
    hide Walkable, Walked, Found, Keeps, StructShape, Body;
  }

  predicate BagResolved(bag: Bag, a: Tables) {
    forall k :: k in bag.properties ==> Resolved(bag.properties[k], a)
  }

  lemma BagKept(bag: Bag, a: Tables, b: Tables)
    requires BagResolved(bag, a) && Keeps(a, b)
    ensures BagResolved(bag, b)
  {
    hide Keeps, Resolved;
    forall k | k in bag.properties ensures Resolved(bag.properties[k], b) { ResolvedKept(bag.properties[k], a, b); }
  }

  lemma {:induction false} UsesKept(uses: seq<Schema>, a: Tables, b: Tables)
    requires Keeps(a, b) && forall k :: 0 <= k < |uses| ==> Resolved(uses[k], a)
    ensures forall k :: 0 <= k < |uses| ==> Resolved(uses[k], b)
  {
    hide Keeps, Resolved;
    forall k | 0 <= k < |uses| ensures Resolved(uses[k], b) { ResolvedKept(uses[k], a, b); }
  }

  /** The hand-written schemas, for components and for types, refer to
      hand-written or standard components. */
  predicate GivenFits(g: Graph, given: map<string, Schema>) {
    && (forall n :: n in given ==> given[n].Custom? && given[n].refs <= given.Keys + STANDARD.Keys)
    && (forall k :: k in g.custom ==> g.custom[k].Custom? && g.custom[k].refs <= given.Keys + STANDARD.Keys)
  }

  lemma StandardResolved(n: string, a: Tables)
    requires n in STANDARD && STANDARD.Keys <= a.schemas.Keys
    ensures Resolved(STANDARD[n], a)
  {
    assert Resolved(Scalar("date-time"), a) && Resolved(TEXT, a) && Resolved(Scalar("uri-reference"), a)
      && Resolved(Scalar("integer"), a);
    assert "ProblemError" in STANDARD;
    assert Resolved(Ref("ProblemError", AsGiven), a);
    assert Resolved(ListOf(Ref("ProblemError", AsGiven)), a);
  }

  /** Part-way through adding the hand-written components. */
  predicate Partly(standard: map<string, Schema>, given: map<string, Schema>, left: set<string>,
                   schemas: map<string, Component>, owners: map<string, TypeId>, anyMap: TypeId) {
    && schemas.Keys == standard.Keys + (given.Keys - left)
    && owners.Keys == given.Keys - left
    && (forall n :: n in given && n !in left ==>
          n !in standard && schemas[n] == Supplied(given[n]) && owners[n] == anyMap)
    && (forall n :: n in standard ==> schemas[n] == Standard(standard[n]))
  }

  lemma PartlyStart(standard: map<string, Schema>, given: map<string, Schema>, schemas: map<string, Component>, anyMap: TypeId)
    requires schemas == map n | n in standard :: Standard(standard[n])
    ensures Partly(standard, given, given.Keys, schemas, map[], anyMap)
  {
  }

  lemma PartlyStep(standard: map<string, Schema>, given: map<string, Schema>, left: set<string>,
                   schemas: map<string, Component>, owners: map<string, TypeId>, anyMap: TypeId, name: string)
    requires Partly(standard, given, left, schemas, owners, anyMap) && left <= given.Keys && name in left
    ensures name in schemas <==> name in standard
    ensures name !in standard ==>
      Partly(standard, given, left - {name}, schemas[name := Supplied(given[name])], owners[name := anyMap], anyMap)
  {
  }

  lemma PartlyDone(standard: map<string, Schema>, given: map<string, Schema>,
                   schemas: map<string, Component>, owners: map<string, TypeId>, anyMap: TypeId)
    requires Partly(standard, given, {}, schemas, owners, anyMap)
    ensures owners.Keys == given.Keys && schemas.Keys == standard.Keys + given.Keys
    ensures forall n :: n in given ==> schemas[n] == Supplied(given[n]) && owners[n] == anyMap
    ensures forall n :: n in standard ==> schemas[n] == Standard(standard[n])
  {
  }

  /** The tables hold the standard and the hand-written components only. */
  predicate OnlyGiven(g: Graph, given: map<string, Schema>, a: Tables) {
    && a.inputs == map[] && a.pages == {} && a.envelopes == {}
    && a.owners.Keys == given.Keys && a.schemas.Keys == STANDARD.Keys + given.Keys
    && (forall n :: n in given ==> a.schemas[n] == Supplied(given[n]) && a.owners[n] == g.anyMap)
    && (forall n :: n in STANDARD && n !in given ==> a.schemas[n] == Standard(STANDARD[n]))
  }

  lemma GivenResolved(g: Graph, given: map<string, Schema>, a: Tables)
    requires GivenFits(g, given) && OnlyGiven(g, given, a)
    ensures Ready(g, a)
  {
    forall n | n in a.schemas ensures Resolved(a.schemas[n].schema, a) {
      if n !in given { StandardResolved(n, a); }
    }
  }

  lemma GivenVouched(g: Graph, m: Measure, given: map<string, Schema>, a: Tables, n: string)
    requires Walkable(g, m) && OnlyGiven(g, given, a) && n in a.schemas
    ensures Vouched(g, m, given, a, n)
  {
    hide Walkable, Body, StructShape, PageOf, EnvelopeOf, Lenient, Built;
    if n !in given { assert n in STANDARD; }
  }

  lemma GivenFilled(g: Graph, m: Measure, given: map<string, Schema>, a: Tables)
    requires Walkable(g, m) && OnlyGiven(g, given, a)
    ensures Filled(a) && OwnersWalked(g, m, given, a) && InputsWalked(g, m, a)
  {
    hide Walkable, Resolved, Body, StructShape, WalkedType;
  }

  lemma GivenSteady(g: Graph, m: Measure, given: map<string, Schema>, a: Tables)
    requires Walkable(g, m) && GivenFits(g, given) && OnlyGiven(g, given, a)
    ensures Steady(g, m, given, a)
  {
    GivenResolved(g, given, a);
    ReadyIsClosed(g, a);
    GivenFilled(g, m, given, a);
    hide Walkable, GivenFits, OnlyGiven, Closed, Ready, Filled, OwnersWalked, InputsWalked, Vouched;
    forall n | n in a.schemas ensures Vouched(g, m, given, a, n) { GivenVouched(g, m, given, a, n); }
  }

  /** At the start the names in use are the standard and hand-written ones. */
  lemma GivenHolds(g: Graph, m: Measure, given: map<string, Schema>, a: Tables, ops: seq<Operation>)
    requires Walkable(g, m) && OnlyGiven(g, given, a) && OperationsOver(g, ops)
    ensures Holds(g, m, given, a, ops[..0])
  {
    hide Walkable, OperationAsks;
    assert ops[..0] == [];
    forall n, use ensures Claimed(a, n, use) <==> Uses(g, m, given, [], n, use) {}
  }

  lemma KeepsReflexive(a: Tables)
    ensures Keeps(a, a)
  {
  }

  lemma KeepsTransitive(a: Tables, b: Tables, c: Tables)
    requires Keeps(a, b) && Keeps(b, c)
    ensures Keeps(a, c)
  {
  }

  lemma KnownIsResolved(name: string, use: Use, a: Tables)
    requires Known(name, use, a)
    ensures Resolved(Ref(name, use), a)
  {
  }

  function Names(g: Graph): set<string> { set i | 0 <= i < |g.types| :: NameOf(g, i) }

  // ----- Between operations

  /** The tables between two operations. */
  ghost predicate Steady(g: Graph, m: Measure, given: map<string, Schema>, a: Tables)
    requires Walkable(g, m)
  {
    Sound(g, m, given, a) && Ready(g, a)
  }

  lemma WalkedSteady(g: Graph, m: Measure, given: map<string, Schema>, a: Tables, b: Tables)
    requires Walkable(g, m) && Steady(g, m, given, a) && Walked(g, m, a, b)
    ensures Steady(g, m, given, b) && Keeps(a, b)
  {
    hide Walkable, Closed, Filled, Rooted, OwnersWalked, InputsWalked, Keeps, Built, Resolved;
    GrewSound(g, m, given, a, b);
    OwnersStayWalked(g, m, given, a, b);
    InputsStayWalked(g, m, a, b);
  }

  lemma LenientResolved(s: Schema, a: Tables)
    requires Resolved(s, a)
    ensures Resolved(Lenient(s), a)
  {
  }

  lemma PageResolved(item: Schema, a: Tables)
    requires Resolved(item, a)
    ensures Resolved(PageOf(item), a)
  {
  }

  lemma EnvelopeResolved(result: Schema, a: Tables)
    requires Resolved(result, a) && Filled(a)
    ensures Resolved(EnvelopeOf(result), a)
  {
    assert "ResponseMeta" in STANDARD;
    assert Resolved(Ref("ResponseMeta", AsGiven), a);
    assert Resolved(ListOf(TEXT), a);
  }

  lemma VouchedStill(g: Graph, m: Measure, given: map<string, Schema>, a: Tables, c: Tables, n: string)
    requires Walkable(g, m) && n in a.schemas && n in c.schemas && c.schemas[n] == a.schemas[n] && c.owners == a.owners
    requires n in a.inputs ==> n in c.inputs && c.inputs[n] == a.inputs[n]
    requires a.pages <= c.pages && a.envelopes <= c.envelopes && Vouched(g, m, given, a, n)
    ensures Vouched(g, m, given, c, n)
  {
    hide Walkable, Body, StructShape, EnvelopeOf, PageOf, Lenient;
  }

  /** Tables that differ in one component and grow otherwise stay rooted. */
  lemma FiledRooted(g: Graph, m: Measure, given: map<string, Schema>, a: Tables, c: Tables, name: string)
    requires Walkable(g, m) && Rooted(g, m, given, a) && name in c.schemas && Vouched(g, m, given, c, name)
    requires forall n :: n in c.schemas && n != name ==> n in a.schemas && c.schemas[n] == a.schemas[n]
    requires c.owners == a.owners
    requires forall n :: n in a.inputs && n != name ==> n in c.inputs && c.inputs[n] == a.inputs[n]
    requires a.pages <= c.pages && a.envelopes <= c.envelopes
    ensures Rooted(g, m, given, c)
  {
    forall n | n in c.schemas ensures Vouched(g, m, given, c, n) {
      hide Walkable, Body, StructShape, EnvelopeOf, PageOf, Lenient;
      if n != name { VouchedStill(g, m, given, a, c, n); }
    }
  }

  lemma TakeInputRooted(g: Graph, m: Measure, given: map<string, Schema>, a: Tables, name: string, t: TypeId)
    requires Walkable(g, m) && Rooted(g, m, given, a) && name !in a.inputs
    ensures Rooted(g, m, given, a.(inputs := a.inputs[name := t]))
  {
    hide Walkable, Vouched;
    var b := a.(inputs := a.inputs[name := t]);
    forall n | n in b.schemas ensures Vouched(g, m, given, b, n) { VouchedStill(g, m, given, a, b, n); }
  }

  /** A name is taken for an input before its type is walked. */
  lemma TakeInput(g: Graph, m: Measure, given: map<string, Schema>, a: Tables, name: string, t: TypeId)
    requires Walkable(g, m) && Steady(g, m, given, a) && name !in a.inputs
    ensures var b := a.(inputs := a.inputs[name := t]);
      Rooted(g, m, given, b) && Ready(g, b) && Keeps(a, b) && OwnersWalked(g, m, given, b)
  {
    var b := a.(inputs := a.inputs[name := t]);
    assert Keeps(a, b);
    hide Walkable, Keeps, Resolved, Rooted, OwnersWalked, InputsWalked, Filled;
    TakeInputRooted(g, m, given, a, name, t);
    OwnersKeptWalked(g, m, given, a, b);
    assert Closed(b) by {
      forall n | n in b.schemas ensures Resolved(b.schemas[n].schema, b) { ResolvedKept(a.schemas[n].schema, a, b); }
    }
    hide Closed;
    ReadyKept(g, a, b);
  }

  lemma FillInput(g: Graph, m: Measure, a: Tables, b: Tables, name: string, t: TypeId, component: Component)
    requires Walkable(g, m) && Filled(a) && Grew(g, m, a.(inputs := a.inputs[name := t]), b)
    ensures Filled(b.(schemas := b.schemas[name := component]))
  {
    hide Walkable, Body;
    forall n | n in b.owners && n !in a.owners ensures n in b.schemas { assert Built(g, m, b, n); }
  }

  lemma InputKeeps(g: Graph, m: Measure, a: Tables, b: Tables, name: string, t: TypeId, component: Component)
    requires Walkable(g, m) && name !in a.inputs && Grew(g, m, a.(inputs := a.inputs[name := t]), b)
    ensures var c := b.(schemas := b.schemas[name := component]);
      Keeps(a, c) && Keeps(b, c) && Known(name, AsInput(t), c)
    ensures b.inputs == a.inputs[name := t] && b.pages == a.pages && b.envelopes == a.envelopes
  {
    hide Walkable, Built;
  }

  lemma InputsWalkedMore(g: Graph, m: Measure, a: Tables, c: Tables, name: string, t: TypeId)
    requires Walkable(g, m) && InputsWalked(g, m, a) && Keeps(a, c) && c.inputs == a.inputs[name := t]
    requires Has(g, t) && StructShape(g, m, t).Some? && Resolved(StructShape(g, m, t).value, c)
    ensures InputsWalked(g, m, c)
  {
    hide Walkable, Keeps, Resolved, StructShape;
    forall n | n in c.inputs
      ensures Has(g, c.inputs[n]) && StructShape(g, m, c.inputs[n]).Some?
              && Resolved(StructShape(g, m, c.inputs[n]).value, c)
    {
      if n != name { ResolvedKept(StructShape(g, m, a.inputs[n]).value, a, c); }
    }
  }

  lemma ReadyIsClosed(g: Graph, a: Tables)
    requires Ready(g, a)
    ensures Closed(a)
  {
  }

  /** Filing a request schema after its type was walked. */
  lemma FileInput(g: Graph, m: Measure, given: map<string, Schema>, a: Tables, b: Tables,
                  name: string, t: TypeId, body: Schema)
    requires Walkable(g, m) && Has(g, t) && Steady(g, m, given, a) && name !in a.inputs
    requires Walked(g, m, a.(inputs := a.inputs[name := t]), b)
    requires Resolved(body, b) && StructShape(g, m, t) == Some(body)
    ensures var c := b.(schemas := b.schemas[name := Input(Lenient(body), t)]);
      Steady(g, m, given, c) && Keeps(a, c) && Known(name, AsInput(t), c) && Resolved(body, c)
    ensures b.inputs == a.inputs[name := t] && b.pages == a.pages && b.envelopes == a.envelopes
  {
    var mid := a.(inputs := a.inputs[name := t]);
    var component := Input(Lenient(body), t);
    var c := b.(schemas := b.schemas[name := component]);
    hide Walkable, Grew, Resolved, Closed, Ready, Filled, Rooted, Keeps, StructShape, Lenient, OwnersWalked, InputsWalked;
    TakeInput(g, m, given, a, name, t);
    InputKeeps(g, m, a, b, name, t, component);
    LenientResolved(body, b);
    ResolvedKept(body, b, c);
    ReadyIsClosed(g, b);
    FilingCloses(b, name, component);
    ReadyKept(g, b, c);
    GrewSound(g, m, given, mid, b);
    FillInput(g, m, a, b, name, t, component);
    FiledRooted(g, m, given, b, c, name);
    OwnersStayWalked(g, m, given, mid, b);
    OwnersKeptWalked(g, m, given, b, c);
    InputsWalkedMore(g, m, a, c, name, t);
  }

  /** Filing a list page over whatever had the name. */
  lemma FilePage(g: Graph, m: Measure, given: map<string, Schema>, a: Tables, name: string, item: Schema)
    requires Walkable(g, m) && Steady(g, m, given, a) && Resolved(item, a)
    ensures var c := a.(schemas := a.schemas[name := Page(PageOf(item))], pages := a.pages + {(name, item)});
      Steady(g, m, given, c) && Keeps(a, c) && Known(name, AsPage(item), c)
  {
    var c := a.(schemas := a.schemas[name := Page(PageOf(item))], pages := a.pages + {(name, item)});
    hide Walkable, Resolved, Keeps, Closed, Ready, Rooted, PageOf, OwnersWalked, InputsWalked;
    PageResolved(item, a);
    FiledSteady(g, m, given, a, c, name);
  }

  /** Filing a success envelope over whatever had the name. */
  lemma FileEnvelope(g: Graph, m: Measure, given: map<string, Schema>, a: Tables, name: string, result: Schema)
    requires Walkable(g, m) && Steady(g, m, given, a) && Resolved(result, a)
    ensures var c := a.(schemas := a.schemas[name := Envelope(EnvelopeOf(result))],
                        envelopes := a.envelopes + {(name, result)});
      Steady(g, m, given, c) && Keeps(a, c) && Known(name, AsEnvelope(result), c)
  {
    var c := a.(schemas := a.schemas[name := Envelope(EnvelopeOf(result))], envelopes := a.envelopes + {(name, result)});
    hide Walkable, Resolved, Keeps, Closed, Ready, Rooted, EnvelopeOf, OwnersWalked, InputsWalked;
    EnvelopeResolved(result, a);
    FiledSteady(g, m, given, a, c, name);
  }

  lemma FiledKeeps(a: Tables, c: Tables, name: string)
    requires Filled(a) && name in c.schemas && c.schemas == a.schemas[name := c.schemas[name]]
    requires c.owners == a.owners && c.inputs == a.inputs
    requires a.pages <= c.pages && (forall p :: p in c.pages ==> p in a.pages || p.0 == name)
    requires a.envelopes <= c.envelopes && (forall p :: p in c.envelopes ==> p in a.envelopes || p.0 == name)
    ensures Keeps(a, c) && Filled(c)
  {
  }

  lemma FiledSteady(g: Graph, m: Measure, given: map<string, Schema>, a: Tables, c: Tables, name: string)
    requires Walkable(g, m) && Steady(g, m, given, a)
    requires name in c.schemas && c.schemas == a.schemas[name := c.schemas[name]] && Resolved(c.schemas[name].schema, a)
    requires c.owners == a.owners && c.inputs == a.inputs
    requires a.pages <= c.pages && (forall p :: p in c.pages ==> p in a.pages || p.0 == name)
    requires a.envelopes <= c.envelopes && (forall p :: p in c.envelopes ==> p in a.envelopes || p.0 == name)
    requires Vouched(g, m, given, c, name)
    ensures Steady(g, m, given, c) && Keeps(a, c)
  {
    hide Walkable, Keeps, Resolved, Filled, Vouched, OwnersWalked, InputsWalked;
    FiledKeeps(a, c, name);
    FiledRooted(g, m, given, a, c, name);
    OwnersKeptWalked(g, m, given, a, c);
    InputsStayWalked(g, m, a, c);
    assert Closed(c) by {
      hide Rooted;
      forall n | n in c.schemas ensures Resolved(c.schemas[n].schema, c) { ResolvedKept(c.schemas[n].schema, a, c); }
    }
    hide Rooted, Closed;
    ReadyKept(g, a, c);
  }

  // ----- What the steps add to the uses

  lemma ClaimKept(a: Tables, b: Tables, n: string, use: Use)
    requires Keeps(a, b) && Claimed(a, n, use)
    ensures Claimed(b, n, use)
  {
  }

  lemma OwnIsKnown(g: Graph, u: TypeId, n: string, b: Tables)
    requires IsNamed(g, u, n) && Claimed(b, NameOf(g, u), AsType(u))
    ensures Claimed(b, n, AsType(u))
  {
  }

  /** A request adds the uses it asks for and no others. */
  lemma RequestAdded(g: Graph, m: Measure, given: map<string, Schema>, a: Tables, b: Tables, t: TypeId, asked: string)
    requires Walkable(g, m) && Has(g, t) && OwnersWalked(g, m, given, b) && Keeps(a, b)
    requires b.pages == a.pages && b.envelopes == a.envelopes
    requires var base := Deref(g, m, t);
      && (b.inputs == a.inputs || b.inputs == a.inputs[InputName(g, base, asked) := base])
      && Known(InputName(g, base, asked), AsInput(base), b)
      && StructShape(g, m, base).Some? && Resolved(StructShape(g, m, base).value, b)
      && Found(g, m, a, b, StructShape(g, m, base).value)
    ensures AddsRequest(g, m, a, b, t, asked)
  {
    var base := Deref(g, m, t);
    hide Walkable, StructShape, Reaches, OwnersWalked, IsNamed, Resolved, InputName, Keeps, Found, Claimed, RequestAsks;
    forall n, use ensures Claimed(b, n, use) <==> Claimed(a, n, use) || RequestAsks(g, m, t, asked, n, use) {
      if Claimed(a, n, use) { ClaimKept(a, b, n, use); }
      if RequestAsks(g, m, t, asked, n, use) { AskedIsClaimed(g, m, given, b, t, asked, n, use); }
      if Claimed(b, n, use) { ClaimedIsAsked(g, m, a, b, t, asked, n, use); }
    }
  }

  lemma AskedIsClaimed(g: Graph, m: Measure, given: map<string, Schema>, b: Tables, t: TypeId, asked: string, n: string,
                       use: Use)
    requires Walkable(g, m) && Has(g, t) && OwnersWalked(g, m, given, b) && RequestAsks(g, m, t, asked, n, use)
    requires var base := Deref(g, m, t);
      && Known(InputName(g, base, asked), AsInput(base), b)
      && StructShape(g, m, base).Some? && Resolved(StructShape(g, m, base).value, b)
    ensures Claimed(b, n, use)
  {
    var base := Deref(g, m, t);
    hide Walkable, StructShape, Reaches, OwnersWalked, IsNamed, Resolved, InputName;
    if use.AsType? {
      ReachedIsClaimed(g, m, given, b, StructShape(g, m, base).value, use.t);
      OwnIsKnown(g, use.t, n, b);
    }
  }

  lemma ClaimedIsAsked(g: Graph, m: Measure, a: Tables, b: Tables, t: TypeId, asked: string, n: string, use: Use)
    requires Walkable(g, m) && Has(g, t) && Claimed(b, n, use) && b.pages == a.pages && b.envelopes == a.envelopes
    requires Keeps(a, b)
    requires var base := Deref(g, m, t);
      && (b.inputs == a.inputs || b.inputs == a.inputs[InputName(g, base, asked) := base])
      && StructShape(g, m, base).Some? && Found(g, m, a, b, StructShape(g, m, base).value)
    ensures Claimed(a, n, use) || RequestAsks(g, m, t, asked, n, use)
  {
    var base := Deref(g, m, t);
    hide Walkable, StructShape, Reaches, IsNamed, InputName;
  }

  /** The walk of a result adds the types the reply asks for and nothing else. */
  lemma TypesAdded(g: Graph, m: Measure, given: map<string, Schema>, a: Tables, b: Tables, reply: Reply)
    requires Walkable(g, m) && ReplyOver(g, reply) && reply.Wrapped?
    requires OwnersWalked(g, m, given, b) && Keeps(a, b)
    requires b.inputs == a.inputs && b.pages == a.pages && b.envelopes == a.envelopes
    requires ReplyRoot(g, m, given, reply).Some? ==> Resolved(ReplyRoot(g, m, given, reply).value, b)
    requires forall n, u :: Renames(g, m, reply, n, u) ==> Claimed(b, n, AsType(u))
    requires forall n :: n in b.owners && n !in a.owners ==>
      || Renames(g, m, reply, n, b.owners[n])
      || (IsNamed(g, b.owners[n], n) && ReplyRoot(g, m, given, reply).Some?
          && Reaches(g, m, ReplyRoot(g, m, given, reply).value, b.owners[n]))
    ensures AddsTypes(g, m, given, a, b, reply)
  {
    hide Walkable, Reaches, OwnersWalked, IsNamed, Resolved, Renames, ReplyRoot;
    forall n, use
      ensures Claimed(b, n, use) <==> Claimed(a, n, use) || (use.AsType? && ReplyAsks(g, m, given, reply, n, use))
    {
      if Claimed(a, n, use) { ClaimKept(a, b, n, use); }
      if use.AsType? && ReplyAsks(g, m, given, reply, n, use) && !Renames(g, m, reply, n, use.t) {
        ReachedIsClaimed(g, m, given, b, ReplyRoot(g, m, given, reply).value, use.t);
        OwnIsKnown(g, use.t, n, b);
      }
    }
  }

  /** The list page comes on top of the types. */
  lemma PageAdded(g: Graph, m: Measure, given: map<string, Schema>, a: Tables, b: Tables, c: Tables, reply: Reply)
    requires Walkable(g, m) && ReplyOver(g, reply) && reply.Wrapped? && AddsTypes(g, m, given, a, b, reply)
    requires Keeps(b, c) && c.owners == b.owners && c.inputs == b.inputs && c.envelopes == b.envelopes
    requires if !reply.list then c.pages == b.pages
             else ItemOf(g, m, reply).Some? && c.pages == b.pages + {(OwnName(g, m, reply) + "List", ItemOf(g, m, reply).value)}
    ensures AddsResult(g, m, given, a, c, reply)
  {
    hide Walkable, Reaches, IsNamed, Renames, ReplyRoot, ItemOf, OwnName, Enveloped, Keeps;
    forall n, use
      ensures Claimed(c, n, use) <==> Claimed(a, n, use) || (!use.AsEnvelope? && ReplyAsks(g, m, given, reply, n, use))
    {
      assert Claimed(b, n, use) <==> Claimed(a, n, use) || (use.AsType? && ReplyAsks(g, m, given, reply, n, use));
      GivenClaims(b, c, n, use);
    }
  }

  lemma GivenClaims(b: Tables, c: Tables, n: string, use: Use)
    ensures use.AsGiven? ==> (Claimed(c, n, use) <==> Claimed(b, n, use))
  {
  }

  /** And the envelope on top of that. */
  lemma EnvelopeAdded(g: Graph, m: Measure, given: map<string, Schema>, a: Tables, c: Tables, d: Tables, reply: Reply)
    requires Walkable(g, m) && ReplyOver(g, reply) && reply.Wrapped? && AddsResult(g, m, given, a, c, reply)
    requires d.owners == c.owners && d.inputs == c.inputs && d.pages == c.pages
    requires Enveloped(g, m, reply).0.Some?
    requires d.envelopes == c.envelopes + {(Enveloped(g, m, reply).1 + "Success", Enveloped(g, m, reply).0.value)}
    ensures AddsReply(g, m, given, a, d, reply)
  {
    hide Walkable, Reaches, IsNamed, Renames, ReplyRoot, ItemOf, OwnName, Enveloped;
    forall n, use ensures Claimed(d, n, use) <==> Claimed(a, n, use) || ReplyAsks(g, m, given, reply, n, use) {
      assert Claimed(c, n, use) <==> Claimed(a, n, use) || (!use.AsEnvelope? && ReplyAsks(g, m, given, reply, n, use));
    }
  }

  // ----- Why an operation fails

  /** The failures of a request met with the tables `a`. */
  ghost predicate RequestBlames(g: Graph, m: Measure, t: TypeId, asked: string, a: Tables, e: Failure)
    requires Walkable(g, m) && Has(g, t)
  {
    var base := Deref(g, m, t);
    var own := InputName(g, base, asked);
    match e
    case NotStruct(u) => u == base && !KindOf(g, base).Struct?
    case Anonymous => own == ""
    case NotPascal(n) => n == own && !Pascal(own)
    case InputClash(n) =>
      n == own && exists u :: Claimed(a, n, AsType(u)) || (u != base && Claimed(a, n, AsInput(u)))
    case _ => Justified(g, m, e, a)
  }

  ghost predicate ReplyBlames(g: Graph, m: Measure, given: map<string, Schema>, reply: Reply, a: Tables, e: Failure)
    requires Walkable(g, m) && ReplyOver(g, reply)
  {
    reply.Wrapped?
    && match e
       case Anonymous => OwnName(g, m, reply) == ""
       case NotPascal(n) => n == OwnName(g, m, reply) && !Pascal(n)
       case NameTaken(n, owner, other) => Renames(g, m, reply, n, other) && owner != other && Claimed(a, n, AsType(owner))
       case PageTaken(n) =>
         && reply.list && n == OwnName(g, m, reply) + "List"
         && exists use: Use :: !use.AsPage? && (Claimed(a, n, use) || ReplyAsks(g, m, given, reply, n, use))
       case Clash(name, owner, other) =>
         || Justified(g, m, e, a)
         || (owner != other && IsNamed(g, other, name) && Renames(g, m, reply, name, owner))
       case _ => Justified(g, m, e, a)
  }

  ghost predicate OperationBlames(g: Graph, m: Measure, given: map<string, Schema>, op: Operation, a: Tables, e: Failure)
    requires Walkable(g, m) && OperationOver(g, op)
  {
    || (op.refused && e.Refused?)
    || (op.request.Some? && RequestBlames(g, m, op.request.value, op.requestName, a, e))
    || exists b :: AfterRequest(g, m, op, a, b) && ReplyBlames(g, m, given, op.reply, b, e)
  }

  ghost predicate AfterRequest(g: Graph, m: Measure, op: Operation, a: Tables, b: Tables)
    requires Walkable(g, m) && OperationOver(g, op)
  {
    if op.request.None? then b == a else AddsRequest(g, m, a, b, op.request.value, op.requestName)
  }

  /** Why a document cannot be generated: the operations before the one that
      fails decide what names are taken. */
  ghost predicate Blames(g: Graph, m: Measure, given: map<string, Schema>, ops: seq<Operation>, e: Failure)
    requires Walkable(g, m) && OperationsOver(g, ops)
  {
    || (e.Reserved? && e.name in given && e.name in STANDARD)
    || (e.NotPascal? && e.name in given && !Pascal(e.name))
    || exists i, a ::
         0 <= i < |ops| && Holds(g, m, given, a, ops[..i]) && OperationBlames(g, m, given, ops[i], a, e)
  }

  // ----- The steps of an operation

  lemma ReadyOfSteady(g: Graph, m: Measure, given: map<string, Schema>, a: Tables)
    requires Walkable(g, m) && Steady(g, m, given, a)
    ensures Ready(g, a) && OwnersWalked(g, m, given, a)
  {
    hide Walkable, Ready, OwnersWalked;
  }

  lemma JustifiedIs(g: Graph, m: Measure, e: Failure, a: Tables)
    requires Walkable(g, m) && Justified(g, m, e, a)
    ensures e.Clash? || e.Underivable? || e.Duplicate?
  {
    hide Walkable;
  }

  lemma JustifiedBlames(g: Graph, m: Measure, given: map<string, Schema>, reply: Reply, a: Tables, e: Failure)
    requires Walkable(g, m) && ReplyOver(g, reply) && reply.Wrapped? && Justified(g, m, e, a)
    ensures ReplyBlames(g, m, given, reply, a, e)
  {
    JustifiedIs(g, m, e, a);
    hide Walkable, Justified;
  }

  lemma RenamedBlames(g: Graph, m: Measure, given: map<string, Schema>, reply: Reply, a: Tables, own: string, base: TypeId,
                      e: Failure)
    requires Walkable(g, m) && ReplyOver(g, reply) && reply.Wrapped? && Renames(g, m, reply, own, base)
    requires Justified(g, m, e, a.(owners := a.owners[own := base]))
    ensures ReplyBlames(g, m, given, reply, a, e)
  {
    JustifiedIs(g, m, e, a.(owners := a.owners[own := base]));
    hide Walkable, ValueShape, StructShape, IsNamed, Renames;
  }

  lemma RequestJustified(g: Graph, m: Measure, t: TypeId, asked: string, a: Tables, own: string, base: TypeId, e: Failure)
    requires Walkable(g, m) && Has(g, t) && Justified(g, m, e, a.(inputs := a.inputs[own := base]))
    ensures RequestBlames(g, m, t, asked, a, e)
  {
    var mid := a.(inputs := a.inputs[own := base]);
    JustifiedIs(g, m, e, mid);
    assert Justified(g, m, e, a) by { hide Walkable, ValueShape, StructShape, IsNamed; }
    var taken := Deref(g, m, t);
    hide Justified, Walkable;
  }

  /** A result that is not renamed is walked where it stands. */
  lemma DirectAdds(g: Graph, m: Measure, given: map<string, Schema>, a: Tables, b: Tables, reply: Reply, s: Schema)
    requires Walkable(g, m) && ReplyOver(g, reply) && reply.Wrapped? && Steady(g, m, given, a) && Walked(g, m, a, b)
    requires var base := Deref(g, m, reply.result); !Renamed(g, base, reply.name) && Shape(g, m, base) == Some(s)
    requires Resolved(s, b) && Found(g, m, a, b, s)
    ensures ItemOf(g, m, reply) == Some(s) && AddsTypes(g, m, given, a, b, reply)
  {
    WalkedSteady(g, m, given, a, b);
    ReadyOfSteady(g, m, given, b);
    OnlyOwners(g, m, a, b);
    assert ReplyRoot(g, m, given, reply) == Some(s);
    hide Walkable, Steady, Walked, Resolved, Reaches, Shape, OwnersWalked, ReplyRoot, Renamed, Keeps, IsNamed, AddsTypes;
    TypesAdded(g, m, given, a, b, reply);
  }

  lemma OnlyOwners(g: Graph, m: Measure, a: Tables, b: Tables)
    requires Walkable(g, m) && Walked(g, m, a, b)
    ensures b.inputs == a.inputs && b.pages == a.pages && b.envelopes == a.envelopes && Keeps(a, b)
  {
    hide Walkable, Ready, Built, Keeps;
  }

  /** A result renamed before is only referred to. */
  lemma AgainAdds(g: Graph, m: Measure, given: map<string, Schema>, a: Tables, reply: Reply, base: TypeId, own: string)
    requires Walkable(g, m) && ReplyOver(g, reply) && reply.Wrapped? && Steady(g, m, given, a)
    requires Renames(g, m, reply, own, base) && own in a.owners && a.owners[own] == base
    ensures ItemOf(g, m, reply) == Some(Ref(own, AsType(base))) && Resolved(Ref(own, AsType(base)), a)
    ensures AddsTypes(g, m, given, a, a, reply)
  {
    ReadyOfSteady(g, m, given, a);
    KeepsReflexive(a);
    assert ReplyRoot(g, m, given, reply).Some? ==> Resolved(ReplyRoot(g, m, given, reply).value, a) by {
      if own !in given { assert WalkedType(g, m, a, base); }
      hide Walkable, Body, Resolved, Steady;
    }
    hide Walkable, Steady, Reaches, OwnersWalked, ReplyRoot, Renamed, Keeps, IsNamed, AddsTypes;
    TypesAdded(g, m, given, a, a, reply);
  }

  /** A result renamed now is owned, walked and filed. */
  lemma RenamedAdds(g: Graph, m: Measure, given: map<string, Schema>, a: Tables, b: Tables, reply: Reply, base: TypeId,
                    own: string, body: Schema)
    requires Walkable(g, m) && ReplyOver(g, reply) && reply.Wrapped? && Steady(g, m, given, a)
    requires Renames(g, m, reply, own, base) && own !in a.owners && Body(g, m, base) == Some(body)
    requires var mid := a.(owners := a.owners[own := base]); Walked(g, m, mid, b) && Found(g, m, mid, b, body)
    requires Resolved(body, b)
    ensures var c := b.(schemas := b.schemas[own := OfType(body, base)]);
      && Walked(g, m, a, c) && Resolved(Ref(own, AsType(base)), c) && AddsTypes(g, m, given, a, c, reply)
    ensures ItemOf(g, m, reply) == Some(Ref(own, AsType(base)))
  {
    var mid := a.(owners := a.owners[own := base]);
    var c := b.(schemas := b.schemas[own := OfType(body, base)]);
    var root := ReplyRoot(g, m, given, reply);
    RenamedWalked(g, m, a, b, base, own, body);
    WalkedSteady(g, m, given, a, c);
    ReadyOfSteady(g, m, given, a);
    ReadyOfSteady(g, m, given, c);
    assert own !in given;
    assert root == Some(body);
    hide Walkable, Steady, Reaches, OwnersWalked, ReplyRoot, Renamed, Renames, Keeps, IsNamed, AddsTypes, Body, Ready, Grew,
      Resolved;
    OnlyOwners(g, m, a, c);
    ResolvedKept(body, b, c);
    RenamedOnly(g, m, reply, base, own);
    KnownIsResolved(own, AsType(base), c);
    TypesAdded(g, m, given, a, c, reply);
  }

  lemma RenamedOnly(g: Graph, m: Measure, reply: Reply, base: TypeId, own: string)
    requires Walkable(g, m) && ReplyOver(g, reply) && Renames(g, m, reply, own, base)
    ensures forall n, u :: Renames(g, m, reply, n, u) ==> n == own && u == base
  {
    hide Walkable;
  }

  lemma RenamedWalked(g: Graph, m: Measure, a: Tables, b: Tables, base: TypeId, own: string, body: Schema)
    requires Walkable(g, m) && Has(g, base) && own !in a.owners && Body(g, m, base) == Some(body)
    requires Walked(g, m, a.(owners := a.owners[own := base]), b) && Resolved(body, b)
    ensures var c := b.(schemas := b.schemas[own := OfType(body, base)]);
      && Walked(g, m, a, c) && Keeps(b, c) && own in c.owners && c.owners[own] == base
  {
    var c := b.(schemas := b.schemas[own := OfType(body, base)]);
    ReadyIsClosed(g, b);
    OwnAndFile(g, m, a, b, own, base, body);
    assert Keeps(b, c) && c.owners == b.owners;
    ReadyKept(g, b, c);
    hide Walkable, Grew, Ready, Body;
  }

  /** A request schema filed before is only referred to. */
  lemma RequestAgain(g: Graph, m: Measure, given: map<string, Schema>, a: Tables, t: TypeId, asked: string)
    requires Walkable(g, m) && Has(g, t) && Steady(g, m, given, a)
    requires var base := Deref(g, m, t);
      InputName(g, base, asked) in a.inputs && a.inputs[InputName(g, base, asked)] == base
    ensures AddsRequest(g, m, a, a, t, asked) && Keeps(a, a) && StructShape(g, m, Deref(g, m, t)).Some?
    ensures Resolved(Ref(InputName(g, Deref(g, m, t), asked), AsInput(Deref(g, m, t))), a)
  {
    var base := Deref(g, m, t);
    assert StructShape(g, m, base).Some? && Resolved(StructShape(g, m, base).value, a) by {
      assert InputsWalked(g, m, a);
      hide Walkable, StructShape, Resolved;
    }
    ReadyOfSteady(g, m, given, a);
    KeepsReflexive(a);
    FoundNothing(g, m, a, StructShape(g, m, base).value);
    RequestAdded(g, m, given, a, a, t, asked);
    hide Walkable, Steady, AddsRequest, Keeps, OwnersWalked, Reaches, StructShape;
  }

  /** A request schema under a new name is walked and filed. */
  lemma RequestFiled(g: Graph, m: Measure, given: map<string, Schema>, a: Tables, b: Tables, t: TypeId, asked: string,
                     base: TypeId, own: string, body: Schema)
    requires Walkable(g, m) && Has(g, t) && Steady(g, m, given, a) && own !in a.inputs
    requires base == Deref(g, m, t) && own == InputName(g, base, asked) && StructShape(g, m, base) == Some(body)
    requires var mid := a.(inputs := a.inputs[own := base]); Walked(g, m, mid, b) && Found(g, m, mid, b, body)
    requires Resolved(body, b)
    ensures var c := b.(schemas := b.schemas[own := Input(Lenient(body), base)]);
      Steady(g, m, given, c) && Keeps(a, c) && Resolved(Ref(own, AsInput(base)), c) && AddsRequest(g, m, a, c, t, asked)
  {
    hide Walkable, Steady, AddsRequest, Keeps, OwnersWalked, Reaches, StructShape, Walked, Lenient, IsNamed, Resolved;
    var c := b.(schemas := b.schemas[own := Input(Lenient(body), base)]);
    FileInput(g, m, given, a, b, own, base, body);
    ReadyOfSteady(g, m, given, c);
    assert Found(g, m, a, c, body);
    hide Found;
    RequestAdded(g, m, given, a, c, t, asked);
    KnownIsResolved(own, AsInput(base), c);
  }

  lemma BodyOfStruct(g: Graph, m: Measure, t: TypeId)
    requires Walkable(g, m) && Has(g, t) && KindOf(g, t).Struct?
    ensures Body(g, m, t) == StructShape(g, m, t)
  {
    hide Walkable, StructShape, ValueShape;
  }

  /** A name taken by something other than a list page is used for it. */
  lemma TakenIsBlamed(g: Graph, m: Measure, given: map<string, Schema>, a: Tables, b: Tables, reply: Reply, name: string)
    requires Walkable(g, m) && ReplyOver(g, reply) && reply.Wrapped? && reply.list && name == OwnName(g, m, reply) + "List"
    requires Steady(g, m, given, b) && AddsTypes(g, m, given, a, b, reply)
    requires name in b.schemas && !IsList(b.schemas[name])
    ensures ReplyBlames(g, m, given, reply, a, PageTaken(name))
  {
    assert Vouched(g, m, given, b, name);
    var use := VouchedServes(g, m, given, b, name);
    hide Walkable, Steady, ReplyAsks, Body, StructShape, OwnName;
    assert !use.AsPage?;
    assert Claimed(b, name, use) <==> Claimed(a, name, use) || (use.AsType? && ReplyAsks(g, m, given, reply, name, use));
  }

  lemma OnlyReplied(g: Graph, m: Measure, given: map<string, Schema>, a: Tables, b: Tables, op: Operation)
    requires Walkable(g, m) && OperationOver(g, op) && op.request.None? && AddsReply(g, m, given, a, b, op.reply)
    ensures AddsOperation(g, m, given, a, b, op)
  {
    hide Walkable, ReplyAsks, Claimed;
  }

  lemma BothAdded(g: Graph, m: Measure, given: map<string, Schema>, a: Tables, b: Tables, c: Tables, op: Operation)
    requires Walkable(g, m) && OperationOver(g, op) && op.request.Some?
    requires AddsRequest(g, m, a, b, op.request.value, op.requestName) && AddsReply(g, m, given, b, c, op.reply)
    ensures AddsOperation(g, m, given, a, c, op)
  {
    hide Walkable, ReplyAsks, RequestAsks, Claimed;
  }

  lemma NothingReplied(g: Graph, m: Measure, given: map<string, Schema>, a: Tables, reply: Reply)
    requires Walkable(g, m) && reply.Bare?
    ensures AddsReply(g, m, given, a, a, reply) && Keeps(a, a)
  {
    hide Walkable, Claimed;
  }
}

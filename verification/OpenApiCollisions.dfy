/** Documents that are generated without an error and in which a reference leads
    to a component written for something else
    (libs/go/arda-openapi/openapi.go). */
module OpenApiCollisions {
  import opened Common
  import opened OpenApi
  import opened OpenApiTables
  import opened OpenApiClaims
  import opened OpenApiSteps
  import opened OpenApiGenerator

  /** Nothing stands against the document, and a name is used for two things. */
  ghost predicate Collides(g: Graph, m: Measure, ops: seq<Operation>, n: string, u: Use, v: Use) {
    && Walkable(g, m) && OperationsOver(g, ops)
    && (forall e :: !Blames(g, m, map[], ops, e))
    && u != v && Uses(g, m, map[], ops, n, u) && Uses(g, m, map[], ops, n, v)
  }

  /** Such a document is generated, and one of the two uses is not served. */
  method Collided(g: Graph, ghost m: Measure, ops: seq<Operation>, ghost n: string, ghost u: Use, ghost v: Use)
    returns (generator: Generator, r: Result<seq<Schema>, Failure>)
    requires g.custom == map[] && Collides(g, m, ops, n, u, v)
    ensures r.Ok? && r.value == PathRefs(g, m, ops)
    ensures generator.graph == g && generator.measure == m && !AllServed(g, m, map[], generator.Now())
  {
    hide Walkable, AllServed, Uses, Blames, PathRefs, Steady, Resolved;
    generator := new Generator(g, m);
    r := generator.Generate(map[], ops);
  }

  // ----- A small package

  const MAP: TypeId := 0
  const TEXTS: TypeId := 4
  const NUMBERS: TypeId := 5
  const ORDER: TypeId := 6

  /** map[string]any, any, string, int, []string, []int, and a struct of this
      name with one string field. */
  function Sample(name: string): Graph {
    Graph([TypeDef("", "", Plain, Dict(true, 1)),
           TypeDef("", "", Plain, Any),
           TypeDef("string", "", Plain, Text),
           TypeDef("int", "", Plain, Whole),
           TypeDef("", "", Plain, Slice(2)),
           TypeDef("", "", Plain, Slice(3)),
           TypeDef(name, "orders", Plain, Struct([Field("Code", "code", false, false, false, false, true, 2)]))],
          map[], MAP)
  }

  const RANKS := Measure(t => if t == MAP || t == TEXTS || t == NUMBERS then 1 else if t == ORDER then 2 else 0,
                         t => if t == ORDER then 1 else 0,
                         t => 0)

  function Answer(t: TypeId, name: string, list: bool): Operation { Operation(false, None, "", Wrapped(t, name, list)) }

  lemma SampleWalks(name: string)
    ensures Walkable(Sample(name), RANKS)
  {
    var g := Sample(name);
    assert Grounded(g, RANKS);
    forall t, i | Has(g, t) && 0 <= i < |Fields(g, t)| ensures GroundedField(g, RANKS, t, Fields(g, t)[i]) {
      assert t == ORDER;
    }
  }

  lemma SampleShapes(name: string)
    requires Walkable(Sample(name), RANKS)
    ensures forall t :: Has(Sample(name), t) ==> Deref(Sample(name), RANKS, t) == t
    ensures Shape(Sample(name), RANKS, TEXTS) == Some(ListOf(Scalar("string")))
    ensures Shape(Sample(name), RANKS, NUMBERS) == Some(ListOf(Scalar("integer")))
    ensures StructShape(Sample(name), RANKS, ORDER) == Some(Object(map["code" := Scalar("string")], {"code"}))
  {
    var g := Sample(name);
    forall t | Has(g, t) ensures Deref(g, RANKS, t) == t {}
    assert Shape(g, RANKS, 2) == Some(Scalar("string"));
    assert Shape(g, RANKS, 3) == Some(Scalar("integer"));
    var f := Fields(g, ORDER)[0];
    assert FieldShape(g, RANKS, f) == Some(Scalar("string"));
    assert GatherField(g, RANKS, ORDER, 0, EMPTY) == Some(Put(EMPTY, f, Scalar("string")));
    assert Gather(g, RANKS, ORDER, 1, Put(EMPTY, f, Scalar("string"))) == Some(Put(EMPTY, f, Scalar("string")));
    assert Put(EMPTY, f, Scalar("string")) == Bag(map["code" := Scalar("string")], {"code"}) by {
      assert {} + {"code"} == {"code"};
    }
  }

  /** Every type of the package has a schema. */
  lemma SampleDerived(name: string, t: TypeId)
    requires Walkable(Sample(name), RANKS) && Has(Sample(name), t)
    ensures ValueShape(Sample(name), RANKS, t).Some? && StructShape(Sample(name), RANKS, t).Some?
  {
    SampleShapes(name);
    var g := Sample(name);
    if t == MAP {
      assert Shape(g, RANKS, 1) == Some(Scalar("any"));
      assert KindShape(g, RANKS, t).Some?;
    }
    if t == TEXTS || t == NUMBERS { assert Shape(g, RANKS, t) == ValueShape(g, RANKS, t); }
    if t == ORDER && name == "" { assert KindShape(g, RANKS, t) == StructShape(g, RANKS, t); }
    if t != ORDER { assert Fields(g, t) == []; }
  }

  // ----- What the operations of the package ask for

  lemma PascalNames()
    ensures Pascal("Foo") && Pascal("OrderRequest") && Pascal("Problem")
  {
  }

  lemma ScalarsLeadNowhere(g: Graph, m: Measure, text: string)
    requires Walkable(g, m)
    ensures forall u :: !Reaches(g, m, ListOf(Scalar(text)), u)
  {
    assert forall name, use :: !Mentions(ListOf(Scalar(text)), name, use);
    hide Walkable, Path, Mentions;
  }

  /** A reply whose schema leads to no type asks for its page and its envelope. */
  lemma PlainReply(g: Graph, m: Measure, reply: Reply, s: Schema, n: string, use: Use)
    requires Walkable(g, m) && ReplyOver(g, reply) && reply.Wrapped? && ItemOf(g, m, reply) == Some(s)
    requires ReplyRoot(g, m, map[], reply) == Some(s) && forall u :: !Reaches(g, m, s, u)
    requires forall k, u :: !Renames(g, m, reply, k, u)
    ensures var own := OwnName(g, m, reply);
      ReplyAsks(g, m, map[], reply, n, use)
      <==> || (reply.list && n == own + "List" && use == AsPage(s))
           || (reply.list && n == own + "List" + "Success" && use == AsEnvelope(Ref(own + "List", AsPage(s))))
           || (!reply.list && n == own + "Success" && use == AsEnvelope(s))
  {
    hide Walkable, ItemOf, ReplyRoot, Reaches, Renames, OwnName, IsNamed;
  }

  function ItemsOf(t: TypeId): Schema { ListOf(Scalar(if t == TEXTS then "string" else "integer")) }

  lemma SliceReply(t: TypeId, list: bool)
    requires (t == TEXTS || t == NUMBERS) && Walkable(Sample(""), RANKS)
    ensures var g, reply := Sample(""), Wrapped(t, "Foo", list);
      && ReplyOver(g, reply) && OwnName(g, RANKS, reply) == "Foo"
      && (forall k, u :: !Renames(g, RANKS, reply, k, u))
      && ItemOf(g, RANKS, reply) == Some(ItemsOf(t)) && ReplyRoot(g, RANKS, map[], reply) == Some(ItemsOf(t))
  {
    SampleShapes("");
    var g, reply := Sample(""), Wrapped(t, "Foo", list);
    assert Deref(g, RANKS, t) == t && !Renamed(g, t, "Foo");
    hide Walkable, Shape, Body;
  }

  /** What a list of scalars under a name of its own asks for. */
  lemma SliceAsks(t: TypeId, list: bool, n: string, use: Use)
    requires (t == TEXTS || t == NUMBERS) && Walkable(Sample(""), RANKS)
    requires ReplyOver(Sample(""), Wrapped(t, "Foo", list))
    ensures ReplyAsks(Sample(""), RANKS, map[], Wrapped(t, "Foo", list), n, use)
       <==> || (list && n == "FooList" && use == AsPage(ItemsOf(t)))
            || (list && n == "FooListSuccess" && use == AsEnvelope(Ref("FooList", AsPage(ItemsOf(t)))))
            || (!list && n == "FooSuccess" && use == AsEnvelope(ItemsOf(t)))
  {
    hide Walkable, Sample, OwnName, Renames, ItemOf, ReplyRoot, ReplyAsks, Reaches;
    SliceReply(t, list);
    ScalarsLeadNowhere(Sample(""), RANKS, if t == TEXTS then "string" else "integer");
    PlainReply(Sample(""), RANKS, Wrapped(t, "Foo", list), ItemsOf(t), n, use);
    Spelled();
  }

  lemma Spelled()
    ensures "Foo" + "List" == "FooList" && "FooList" + "Success" == "FooListSuccess" && "Foo" + "Success" == "FooSuccess"
  {
  }

  lemma ItemsDiffer()
    ensures ItemsOf(TEXTS) != ItemsOf(NUMBERS)
  {
    assert |"string"| != |"integer"|;
  }

  lemma TwoUses(g: Graph, m: Measure, ops: seq<Operation>, i: nat, j: nat, n: string, u: Use, v: Use)
    requires Walkable(g, m) && OperationsOver(g, ops) && i < |ops| && j < |ops| && u != v
    requires forall e :: !Blames(g, m, map[], ops, e)
    requires OperationAsks(g, m, map[], ops[i], n, u)
    requires OperationAsks(g, m, map[], ops[j], n, v) || UsedFirst(g, map[], n, v)
    ensures Collides(g, m, ops, n, u, v)
  {
    hide Walkable, OperationAsks, UsedFirst, Blames;
    assert Uses(g, m, map[], ops, n, u) && Uses(g, m, map[], ops, n, v);
  }

  lemma ReplyAsked(g: Graph, m: Measure, op: Operation, n: string, use: Use)
    requires Walkable(g, m) && OperationOver(g, op) && ReplyAsks(g, m, map[], op.reply, n, use)
    ensures OperationAsks(g, m, map[], op, n, use)
  {
  }

  function Slices(list: bool): (ops: seq<Operation>)
    ensures |ops| == 2
  {
    [Answer(TEXTS, "Foo", list), Answer(NUMBERS, "Foo", list)]
  }

  lemma SlicesOver(list: bool)
    ensures OperationsOver(Sample(""), Slices(list))
    ensures Slices(list)[0].reply == Wrapped(TEXTS, "Foo", list) && Slices(list)[1].reply == Wrapped(NUMBERS, "Foo", list)
    ensures forall i :: 0 <= i < 2 ==> ReplyOver(Sample(""), Slices(list)[i].reply)
  {
  }

  /** Two slices under one result name: the second envelope replaces the first,
      and the second list page the first. */
  lemma SlicesCollide(list: bool)
    ensures Collides(Sample(""), RANKS, Slices(list), if list then "FooList" else "FooSuccess", Kept(list, TEXTS),
                     Kept(list, NUMBERS))
  {
    hide Walkable, Sample, Slices, ReplyAsks, OperationAsks, UsedFirst, Blames;
    var g, ops, n := Sample(""), Slices(list), if list then "FooList" else "FooSuccess";
    SampleWalks("");
    SlicesOver(list);
    SlicesNotBlamed(list);
    SliceAsks(TEXTS, list, n, Kept(list, TEXTS));
    SliceAsks(NUMBERS, list, n, Kept(list, NUMBERS));
    ItemsDiffer();
    ReplyAsked(g, RANKS, ops[0], n, Kept(list, TEXTS));
    ReplyAsked(g, RANKS, ops[1], n, Kept(list, NUMBERS));
    TwoUses(g, RANKS, ops, 0, 1, n, Kept(list, TEXTS), Kept(list, NUMBERS));
  }

  function Kept(list: bool, t: TypeId): Use { if list then AsPage(ItemsOf(t)) else AsEnvelope(ItemsOf(t)) }

  /** Walking the package fails only when its struct's name is taken. */
  lemma WalkFails(name: string, e: Failure, a: Tables)
    requires Walkable(Sample(name), RANKS) && Justified(Sample(name), RANKS, e, a)
    ensures name != "" && e.Clash? && e.name == name && e.owner != ORDER && Claimed(a, name, AsType(e.owner))
  {
    var g := Sample(name);
    hide Walkable;
    if e.Underivable? { SampleDerived(name, e.t); }
    if e.Duplicate? {
      var t :| Has(g, t) && StructShape(g, RANKS, t).None?;
      SampleDerived(name, t);
    }
  }

  lemma SlicesNotBlamed(list: bool)
    requires Walkable(Sample(""), RANKS) && OperationsOver(Sample(""), Slices(list))
    ensures forall e :: !Blames(Sample(""), RANKS, map[], Slices(list), e)
  {
    var g, ops := Sample(""), Slices(list);
    SlicesOver(list);
    hide Walkable, Sample, ReplyBlames, Holds, RequestBlames;
    forall e ensures !Blames(g, RANKS, map[], ops, e) {
      forall i, a | 0 <= i < |ops| && Holds(g, RANKS, map[], a, ops[..i])
        ensures !OperationBlames(g, RANKS, map[], ops[i], a, e)
      {
        SliceNotBlamed(list, i, a, e);
      }
    }
  }

  lemma SliceNotBlamed(list: bool, i: nat, a: Tables, e: Failure)
    requires Walkable(Sample(""), RANKS) && i < |Slices(list)| && OperationsOver(Sample(""), Slices(list))
    requires Holds(Sample(""), RANKS, map[], a, Slices(list)[..i])
    ensures !ReplyBlames(Sample(""), RANKS, map[], Slices(list)[i].reply, a, e)
  {
    var g, reply := Sample(""), Slices(list)[i].reply;
    var t := if i == 0 then TEXTS else NUMBERS;
    SlicesOver(list);
    hide Walkable, Pascal, Holds, ItemOf, OwnName, Renames, ReplyRoot, ReplyAsks, Justified, Sample, Claimed, ReplyBlames;
    SliceReply(t, list);
    PascalNames();
    Spelled();
    if Justified(g, RANKS, e, a) {
      WalkFails("", e, a);
      assert false;
    }
    if list { forall use: Use | !use.AsPage? { PageIsFree(i, a, use); } }
    ReplyFine(g, RANKS, reply, a, e);
  }

  lemma ReplyFine(g: Graph, m: Measure, reply: Reply, a: Tables, e: Failure)
    requires Walkable(g, m) && ReplyOver(g, reply) && reply.Wrapped? && Pascal(OwnName(g, m, reply))
    requires !Justified(g, m, e, a) && forall n, u :: !Renames(g, m, reply, n, u)
    requires reply.list ==> forall use: Use :: !use.AsPage? ==>
      !Claimed(a, OwnName(g, m, reply) + "List", use) && !ReplyAsks(g, m, map[], reply, OwnName(g, m, reply) + "List", use)
    ensures !ReplyBlames(g, m, map[], reply, a, e)
  {
    hide Walkable, OwnName, Renames, Justified, Claimed, ReplyAsks;
  }

  /** Only list pages take the name of the list page. */
  lemma PageIsFree(i: nat, a: Tables, use: Use)
    requires Walkable(Sample(""), RANKS) && i < |Slices(true)| && !use.AsPage? && OperationsOver(Sample(""), Slices(true))
    requires Holds(Sample(""), RANKS, map[], a, Slices(true)[..i])
    ensures !Claimed(a, "FooList", use) && !ReplyAsks(Sample(""), RANKS, map[], Slices(true)[i].reply, "FooList", use)
  {
    var g, ops := Sample(""), Slices(true);
    var before := ops[..i];
    SlicesOver(true);
    NotReserved();
    assert forall j :: 0 <= j < i ==> before[j] == Slices(true)[0];
    hide Walkable, Sample, ReplyAsks, RequestAsks, Claimed;
    SliceAsks(TEXTS, true, "FooList", use);
    SliceAsks(NUMBERS, true, "FooList", use);
    Longer();
    assert Claimed(a, "FooList", use) <==> Uses(g, RANKS, map[], before, "FooList", use);
  }

  lemma Longer()
    ensures "FooList" != "FooListSuccess"
  {
    assert |"FooList"| != |"FooListSuccess"|;
  }

  lemma NotReserved()
    ensures "FooList" !in STANDARD
  {
  }

  // ----- Types

  /** The struct, answered under its own name. */
  lemma StructAsks(name: string)
    requires Walkable(Sample(name), RANKS) && name != ""
    ensures var g, reply := Sample(name), Wrapped(ORDER, "", false);
      && ReplyOver(g, reply) && OwnName(g, RANKS, reply) == name
      && (forall n, u :: !Renames(g, RANKS, reply, n, u))
      && ReplyAsks(g, RANKS, map[], reply, name, AsType(ORDER))
  {
    SampleShapes(name);
    var g, reply := Sample(name), Wrapped(ORDER, "", false);
    assert Deref(g, RANKS, ORDER) == ORDER && !Renamed(g, ORDER, "");
    var s := Ref(name, AsType(ORDER));
    assert KindShape(g, RANKS, ORDER) == Some(s);
    assert ReplyRoot(g, RANKS, map[], reply) == Some(s);
    assert Meets(g, s, ORDER);
    hide Walkable, ReplyRoot;
    ReachesMet(g, RANKS, s, ORDER);
    assert IsNamed(g, ORDER, name);
  }

  lemma OneNamed(name: string, t: TypeId, n: string)
    requires IsNamed(Sample(name), t, n)
    ensures t == ORDER && n == name
  {
  }

  /** A type answered under its own name is not blamed while no other type has
      the name. */
  lemma StructNotBlamed(name: string, a: Tables, e: Failure)
    requires Walkable(Sample(name), RANKS) && Pascal(name)
    requires forall t :: t != ORDER ==> !Claimed(a, name, AsType(t))
    ensures !ReplyBlames(Sample(name), RANKS, map[], Wrapped(ORDER, "", false), a, e)
  {
    hide Walkable, Pascal, OwnName, Renames, ReplyAsks, Justified, Sample, Claimed, ReplyBlames;
    StructAsks(name) by { NotEmpty(name); }
    if Justified(Sample(name), RANKS, e, a) {
      WalkFails(name, e, a);
      assert false;
    }
    ReplyFine(Sample(name), RANKS, Wrapped(ORDER, "", false), a, e);
  }

  lemma NotEmpty(name: string)
    requires Pascal(name)
    ensures name != ""
  {
  }

  /** A type called Problem replaces the standard component. */
  lemma StandardCollides()
    ensures Collides(Sample("Problem"), RANKS, [Answer(ORDER, "", false)], "Problem", AsType(ORDER), AsGiven)
  {
    SampleWalks("Problem");
    var g, ops := Sample("Problem"), [Answer(ORDER, "", false)];
    StructAsks("Problem");
    PascalNames();
    ProblemIsStandard();
    assert OperationOver(g, ops[0]);
    hide Walkable, Blames, ReplyAsks, OwnName, Renames, Sample, Pascal, OperationAsks, Collides;
    ReplyAsked(g, RANKS, ops[0], "Problem", AsType(ORDER));
    forall e ensures !Blames(g, RANKS, map[], ops, e) { ProblemNotBlamed(ops, e); }
    TwoUses(g, RANKS, ops, 0, 0, "Problem", AsType(ORDER), AsGiven);
  }

  lemma ProblemIsStandard()
    ensures "Problem" in STANDARD
  {
  }

  lemma ProblemNotBlamed(ops: seq<Operation>, e: Failure)
    requires Walkable(Sample("Problem"), RANKS) && ops == [Answer(ORDER, "", false)]
    requires OperationsOver(Sample("Problem"), ops) && Pascal("Problem")
    ensures !Blames(Sample("Problem"), RANKS, map[], ops, e)
  {
    var g := Sample("Problem");
    if Blames(g, RANKS, map[], ops, e) {
      var i, a :| 0 <= i < |ops| && Holds(g, RANKS, map[], a, ops[..i]) && OperationBlames(g, RANKS, map[], ops[i], a, e);
      hide Walkable, Sample, Pascal, ReplyBlames, Claimed;
      forall t ensures !Claimed(a, "Problem", AsType(t)) {
        assert Claimed(a, "Problem", AsType(t)) <==> Uses(g, RANKS, map[], ops[..i], "Problem", AsType(t));
      }
      StructNotBlamed("Problem", a, e);
    }
  }

  function Asked(t: TypeId): Operation { Operation(false, Some(t), "", Bare) }

  function Twice(): (ops: seq<Operation>)
    ensures |ops| == 2
  {
    [Asked(ORDER), Answer(ORDER, "", false)]
  }

  lemma TwiceOver()
    ensures OperationsOver(Sample("OrderRequest"), Twice())
    ensures Twice()[0] == Operation(false, Some(ORDER), "", Bare) && Twice()[1].reply == Wrapped(ORDER, "", false)
  {
  }

  /** A request type answered later: its lenient schema is replaced by the
      strict one. The component a request counts on requires nothing, the one an
      answer counts on requires the code. */
  lemma RequestCollides()
    ensures Collides(Sample("OrderRequest"), RANKS, Twice(), "OrderRequest", AsInput(ORDER), AsType(ORDER))
    ensures forall c :: Serves(Sample("OrderRequest"), RANKS, map[], "OrderRequest", c, AsInput(ORDER)) ==>
      c.schema.Object? && c.schema.properties == map["code" := Scalar("string")] && c.schema.required == {}
    ensures forall c :: Serves(Sample("OrderRequest"), RANKS, map[], "OrderRequest", c, AsType(ORDER)) ==>
      c.schema.Object? && c.schema.properties == map["code" := Scalar("string")] && c.schema.required == {"code"}
  {
    hide Walkable, Blames, ReplyAsks, RequestAsks, OwnName, Renames, Sample, Pascal, OperationAsks, InputName, IsNamed,
      Collides, Twice, Serves;
    var g, ops := Sample("OrderRequest"), Twice();
    SampleWalks("OrderRequest");
    StructAsks("OrderRequest");
    RequestOfStruct();
    PascalNames();
    TwiceOver();
    RequestAsked(g, RANKS, ops[0], "OrderRequest", AsInput(ORDER));
    ReplyAsked(g, RANKS, ops[1], "OrderRequest", AsType(ORDER));
    forall e ensures !Blames(g, RANKS, map[], ops, e) { RequestNotBlamed(ops, e); }
    TwoUses(g, RANKS, ops, 0, 1, "OrderRequest", AsInput(ORDER), AsType(ORDER));
    ServedDifferently();
  }

  lemma ServedDifferently()
    requires Walkable(Sample("OrderRequest"), RANKS)
    ensures forall c :: Serves(Sample("OrderRequest"), RANKS, map[], "OrderRequest", c, AsInput(ORDER)) ==>
      c.schema == Object(map["code" := Scalar("string")], {})
    ensures forall c :: Serves(Sample("OrderRequest"), RANKS, map[], "OrderRequest", c, AsType(ORDER)) ==>
      c.schema == Object(map["code" := Scalar("string")], {"code"})
  {
    var g := Sample("OrderRequest");
    SampleShapes("OrderRequest");
    assert KindOf(g, ORDER).Struct?;
    BodyOfStruct(g, RANKS, ORDER);
    hide Walkable, StructShape, Body, Sample;
  }

  /** The run itself: the component is lenient after the request and strict after
      the answer. */
  method RequestReplaced() returns (lenient: Component, strict: Component)
    ensures lenient.Input? && lenient.schema == Object(map["code" := Scalar("string")], {})
    ensures strict.OfType? && strict.schema == Object(map["code" := Scalar("string")], {"code"})
  {
    hide Walkable, Sample, StructShape, Body, Steady, Shape, Pascal, RequestBlames, Claimed, AddsRequest, RequiresNothing,
      OnlyGiven, GivenFits, Walked, Resolved, Justified, Found, Keeps, InputName, Ready;
    SampleWalks("OrderRequest");
    SampleFits();
    RequestOfStruct();
    var generator := new Generator(Sample("OrderRequest"), RANKS);
    var given := generator.AddGiven(map[]);
    ghost var a := generator.Now();
    assert given.Ok?;
    var input := generator.InputSchema(ORDER, "", map[]);
    FirstStep(a, if input.Err? then input.error else Refused);
    ghost var b := generator.Now();
    lenient := generator.schemas["OrderRequest"];
    LenientIs(lenient);
    StillFree(a, b);
    ReadyOfSteady(generator.graph, RANKS, map[], b);
    var answer := generator.TypeSchema(ORDER);
    SecondStep(b, generator.Now(), answer);
    strict := generator.schemas["OrderRequest"];
  }

  lemma SampleFits()
    ensures GivenFits(Sample("OrderRequest"), map[]) && Has(Sample("OrderRequest"), ORDER)
    ensures KindOf(Sample("OrderRequest"), ORDER).Struct?
  {}

  lemma FirstStep(a: Tables, e: Failure)
    requires Walkable(Sample("OrderRequest"), RANKS) && OnlyGiven(Sample("OrderRequest"), map[], a)
    ensures !RequestBlames(Sample("OrderRequest"), RANKS, ORDER, "", a, e)
    ensures "OrderRequest" !in a.inputs
  {
    hide Walkable, Sample, RequestBlames;
    RequestFine(a, e);
  }

  lemma LenientIs(c: Component)
    requires Walkable(Sample("OrderRequest"), RANKS)
    requires RequiresNothing(Sample("OrderRequest"), RANKS, c.schema, ORDER)
    ensures c.schema == Object(map["code" := Scalar("string")], {})
  {
    SampleShapes("OrderRequest");
    hide Walkable, Sample, StructShape;
  }

  lemma StillFree(a: Tables, b: Tables)
    requires Walkable(Sample("OrderRequest"), RANKS) && OnlyGiven(Sample("OrderRequest"), map[], a)
    requires Has(Sample("OrderRequest"), ORDER) && AddsRequest(Sample("OrderRequest"), RANKS, a, b, ORDER, "")
    ensures "OrderRequest" !in b.owners
  {
    var g := Sample("OrderRequest");
    SampleShapes("OrderRequest");
    var s := StructShape(g, RANKS, ORDER).value;
    assert forall name, use :: !Mentions(s, name, use);
    hide Walkable, Sample, StructShape, Mentions, Path;
    assert forall t :: !Reaches(g, RANKS, s, t);
    hide Reaches;
    forall t ensures !Claimed(b, "OrderRequest", AsType(t)) {
      assert !Claimed(a, "OrderRequest", AsType(t)) && !RequestAsks(g, RANKS, ORDER, "", "OrderRequest", AsType(t));
    }
    assert "OrderRequest" in b.owners ==> Claimed(b, "OrderRequest", AsType(b.owners["OrderRequest"]));
  }

  lemma SecondStep(b: Tables, c: Tables, answer: Result<Schema, Failure>)
    requires Walkable(Sample("OrderRequest"), RANKS) && Has(Sample("OrderRequest"), ORDER)
    requires "OrderRequest" !in b.owners
    requires answer.Ok? ==> Walked(Sample("OrderRequest"), RANKS, b, c) && Resolved(answer.value, c)
    requires answer.Ok? ==> Shape(Sample("OrderRequest"), RANKS, ORDER) == Some(answer.value)
    requires answer.Err? ==> Justified(Sample("OrderRequest"), RANKS, answer.error, b)
    ensures answer.Ok? && "OrderRequest" in c.schemas
    ensures c.schemas["OrderRequest"] == OfType(Object(map["code" := Scalar("string")], {"code"}), ORDER)
  {
    var g := Sample("OrderRequest");
    if answer.Err? {
      WalkFails("OrderRequest", answer.error, b);
      assert false;
    }
    SampleShapes("OrderRequest");
    assert KindOf(g, ORDER).Struct? && NameOf(g, ORDER) == "OrderRequest" && Derived(g, ORDER);
    HoldingShapes(g, RANKS, ORDER);
    BodyOfStruct(g, RANKS, ORDER);
    hide Walkable, Sample, StructShape, Shape, Body, Ready;
    assert Known("OrderRequest", AsType(ORDER), c);
    assert Built(g, RANKS, c, "OrderRequest");
  }

  lemma RequestAsked(g: Graph, m: Measure, op: Operation, n: string, use: Use)
    requires Walkable(g, m) && OperationOver(g, op) && op.request.Some?
    requires RequestAsks(g, m, op.request.value, op.requestName, n, use)
    ensures OperationAsks(g, m, map[], op, n, use)
  {
  }

  lemma RequestOfStruct()
    requires Walkable(Sample("OrderRequest"), RANKS)
    ensures var g := Sample("OrderRequest");
      && Deref(g, RANKS, ORDER) == ORDER && InputName(g, ORDER, "") == "OrderRequest"
      && RequestAsks(g, RANKS, ORDER, "", "OrderRequest", AsInput(ORDER))
  {
    SampleShapes("OrderRequest");
    assert EndsWith("OrderRequest", "Request");
  }

  lemma RequestFine(a: Tables, e: Failure)
    requires Walkable(Sample("OrderRequest"), RANKS)
    requires forall t :: !Claimed(a, "OrderRequest", AsType(t)) && !Claimed(a, "OrderRequest", AsInput(t))
    ensures !RequestBlames(Sample("OrderRequest"), RANKS, ORDER, "", a, e)
  {
    var g := Sample("OrderRequest");
    RequestOfStruct();
    PascalNames();
    assert KindOf(g, ORDER).Struct?;
    if Justified(g, RANKS, e, a) {
      WalkFails("OrderRequest", e, a);
      assert false;
    }
    hide Walkable, Sample, Pascal, Claimed, Justified, InputName;
  }

  lemma RequestNotBlamed(ops: seq<Operation>, e: Failure)
    requires Walkable(Sample("OrderRequest"), RANKS) && ops == Twice()
    requires OperationsOver(Sample("OrderRequest"), ops) && Pascal("OrderRequest")
    ensures !Blames(Sample("OrderRequest"), RANKS, map[], ops, e)
  {
    var g := Sample("OrderRequest");
    TwiceOver();
    if Blames(g, RANKS, map[], ops, e) {
      var i, a :| 0 <= i < |ops| && Holds(g, RANKS, map[], a, ops[..i]) && OperationBlames(g, RANKS, map[], ops[i], a, e);
      if i == 0 {
        FirstFree(ops, a);
        RequestFine(a, e);
      } else {
        SecondFree(ops, a);
        StructNotBlamed("OrderRequest", a, e);
      }
    }
  }

  lemma FirstFree(ops: seq<Operation>, a: Tables)
    requires Walkable(Sample("OrderRequest"), RANKS) && OperationsOver(Sample("OrderRequest"), ops)
    requires Holds(Sample("OrderRequest"), RANKS, map[], a, ops[..0])
    ensures forall t :: !Claimed(a, "OrderRequest", AsType(t)) && !Claimed(a, "OrderRequest", AsInput(t))
  {
    var g := Sample("OrderRequest");
    hide Walkable, Sample, Claimed, OperationAsks;
    forall t ensures !Claimed(a, "OrderRequest", AsType(t)) && !Claimed(a, "OrderRequest", AsInput(t)) {
      assert Claimed(a, "OrderRequest", AsType(t)) <==> Uses(g, RANKS, map[], ops[..0], "OrderRequest", AsType(t));
      assert Claimed(a, "OrderRequest", AsInput(t)) <==> Uses(g, RANKS, map[], ops[..0], "OrderRequest", AsInput(t));
    }
  }

  lemma SecondFree(ops: seq<Operation>, a: Tables)
    requires Walkable(Sample("OrderRequest"), RANKS) && ops == Twice()
    requires OperationsOver(Sample("OrderRequest"), ops)
    requires Holds(Sample("OrderRequest"), RANKS, map[], a, ops[..1])
    ensures forall t :: t != ORDER ==> !Claimed(a, "OrderRequest", AsType(t))
  {
    var g := Sample("OrderRequest");
    hide Walkable, Sample, Claimed, Reaches, IsNamed;
    forall t | t != ORDER ensures !Claimed(a, "OrderRequest", AsType(t)) {
      assert Claimed(a, "OrderRequest", AsType(t)) <==> Uses(g, RANKS, map[], ops[..1], "OrderRequest", AsType(t));
      if IsNamed(g, t, "OrderRequest") {
        OneNamed("OrderRequest", t, "OrderRequest");
        assert false;
      }
      assert ops[..1][0] == Asked(ORDER);
    }
  }
}

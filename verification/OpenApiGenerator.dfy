/** The OpenAPI generator's walk: a depth-first search over Go types that fills
    its name tables as it goes (libs/go/arda-openapi/openapi.go). */
module OpenApiGenerator {
  import opened Common
  import opened OpenApi
  import opened OpenApiTables
  import opened OpenApiClaims
  import opened OpenApiSteps

  class Generator {
    const graph: Graph
    ghost const measure: Measure
    var schemas: map<string, Component>
    var owners: map<string, TypeId>
    var inputs: map<string, TypeId>
    ghost var pages: set<(string, Schema)>
    ghost var envelopes: set<(string, Schema)>

    ghost function Now(): Tables
      reads this
    {
      Tables(schemas, owners, inputs, pages, envelopes)
    }

    ghost predicate Fit() { Walkable(graph, measure) }

    // ----- The document

    constructor (graph: Graph, ghost measure: Measure)
      requires Walkable(graph, measure)
      ensures this.graph == graph && this.measure == measure && Fit()
      ensures Now() == Tables(map[], map[], map[], {}, {})
    {
      this.graph := graph;
      this.measure := measure;
      schemas, owners, inputs := map[], map[], map[];
      pages, envelopes := {}, {};
    }

    /** The standard components, then the hand-written ones; a hand-written
        component is owned by the type map[string]any. */
    method AddGiven(given: map<string, Schema>) returns (r: Result<bool, Failure>)
      requires Fit() && Now() == Tables(map[], map[], map[], {}, {}) && GivenFits(graph, given)
      modifies this
      ensures r.Ok? <==> forall n :: n in given ==> Pascal(n) && n !in STANDARD
      ensures r.Ok? ==> Settled(given) && OnlyGiven(graph, given, Now())
      ensures r.Err? ==>
        || (r.error.Reserved? && r.error.name in given && r.error.name in STANDARD)
        || (r.error.NotPascal? && r.error.name in given && !Pascal(r.error.name))
    {
      hide Walkable, Steady, GivenFits, Pascal, Partly;
      schemas := map n | n in STANDARD :: Standard(STANDARD[n]);
      var left := given.Keys;
      PartlyStart(STANDARD, given, schemas, graph.anyMap);
      while left != {}
        invariant left <= given.Keys && inputs == map[] && pages == {} && envelopes == {}
        invariant Partly(STANDARD, given, left, schemas, owners, graph.anyMap)
        invariant forall n :: n in given && n !in left ==> Pascal(n) && n !in STANDARD
        decreases left
      {
        var name :| name in left;
        if !Pascal(name) {
          return Err(NotPascal(name));
        }
        PartlyStep(STANDARD, given, left, schemas, owners, graph.anyMap, name);
        if name in schemas {
          return Err(Reserved(name));
        }
        schemas := schemas[name := Supplied(given[name])];
        owners := owners[name := graph.anyMap];
        left := left - {name};
      }
      PartlyDone(STANDARD, given, schemas, owners, graph.anyMap);
      GivenSteady(graph, measure, given, Now());
      r := Ok(true);
    }

    /** The whole document. On success the names in use are exactly those the
        operations ask for, and every one of them leads to the component it was
        used for exactly when no name is used for two things. */
    method Generate(given: map<string, Schema>, operations: seq<Operation>) returns (r: Result<seq<Schema>, Failure>)
      requires Fit() && Now() == Tables(map[], map[], map[], {}, {}) && GivenFits(graph, given)
      requires OperationsOver(graph, operations)
      modifies this
      ensures r.Ok? ==> Settled(given) && r.value == PathRefs(graph, measure, operations)
      ensures r.Ok? ==> forall i :: 0 <= i < |r.value| ==> Resolved(r.value[i], Now())
      ensures r.Ok? ==> Holds(graph, measure, given, Now(), operations)
      ensures r.Ok? ==> (AllServed(graph, measure, given, Now()) <==> Apart(graph, measure, given, operations))
      ensures r.Ok? ==> forall n :: n in schemas && schemas[n].Input? ==>
        RequiresNothing(graph, measure, schemas[n].schema, schemas[n].source)
      ensures r.Err? ==> Blames(graph, measure, given, operations, r.error)
    {
      var start := AddGiven(given);
      if start.Err? {
        return Err(start.error);
      }
      GivenHolds(graph, measure, given, Now(), operations);
      assert operations[..0] == [] && operations[..|operations|] == operations;
      assert PathRefs(graph, measure, []) == [];
      hide Walkable, Steady, Resolved, Keeps, OnlyGiven, Holds, AddsOperation, OperationBlames, RequestRefs, ReplyRefs,
        AllServed, Apart, PathRefs, RequiresNothing;
      var uses: seq<Schema> := [];
      for i := 0 to |operations|
        invariant Settled(given) && Holds(graph, measure, given, Now(), operations[..i])
        invariant uses == PathRefs(graph, measure, operations[..i])
        invariant forall k :: 0 <= k < |uses| ==> Resolved(uses[k], Now())
      {
        ghost var before := Now();
        var built := AddOperation(operations[i], given);
        if built.Err? {
          return Err(built.error);
        }
        HoldsMore(graph, measure, given, before, Now(), operations, i);
        UsesKept(uses, before, Now());
        PathRefsMore(graph, measure, operations, i);
        uses := uses + built.value;
      }
      Finished(given, operations);
      r := Ok(uses);
    }

    lemma Finished(given: map<string, Schema>, operations: seq<Operation>)
      requires Fit() && OperationsOver(graph, operations)
      requires Settled(given) && Holds(graph, measure, given, Now(), operations)
      ensures AllServed(graph, measure, given, Now()) <==> Apart(graph, measure, given, operations)
      ensures forall n :: n in schemas && schemas[n].Input? ==>
        RequiresNothing(graph, measure, schemas[n].schema, schemas[n].source)
    {
      assert Rooted(graph, measure, given, Now());
      InputsRequireNothing(graph, measure, given, Now());
      hide Walkable, Sound, Ready, RequiresNothing, Holds, AllServed, Apart, Unshared;
      SharedNamesLose(graph, measure, given, Now());
      HeldIsApart(graph, measure, given, Now(), operations);
    }

    // ----- Operations

    ghost predicate Settled(given: map<string, Schema>)
      requires Fit()
      reads this
    {
      Steady(graph, measure, given, Now())
    }

    /** schemaFor: the schema a component gets for its type. */
    method SchemaFor(t: TypeId) returns (r: Result<Schema, Failure>)
      requires Fit() && Has(graph, t) && Ready(graph, Now())
      modifies this
      ensures r.Ok? ==> Walked(graph, measure, old(Now()), Now()) && Resolved(r.value, Now())
      ensures r.Ok? ==> Body(graph, measure, t) == Some(r.value) && Found(graph, measure, old(Now()), Now(), r.value)
      ensures r.Err? ==> Justified(graph, measure, r.error, old(Now()))
    {
      if KindOf(graph, t).Dict? {
        r := ValueSchema(t);
      } else {
        r := StructSchema(t);
      }
    }

    /** The result of an operation, by reference under the name asked for when
        that is not the type's own name. */
    method NamedSchema(reply: Reply, ghost given: map<string, Schema>) returns (r: Result<Schema, Failure>)
      requires Fit() && ReplyOver(graph, reply) && reply.Wrapped? && Settled(given)
      modifies this
      ensures r.Ok? ==> Walked(graph, measure, old(Now()), Now()) && Resolved(r.value, Now())
      ensures r.Ok? ==> Pascal(OwnName(graph, measure, reply)) && ItemOf(graph, measure, reply) == Some(r.value)
      ensures r.Ok? ==> AddsTypes(graph, measure, given, old(Now()), Now(), reply)
      ensures r.Err? ==> ReplyBlames(graph, measure, given, reply, old(Now()), r.error)
    {
      var base := Dereference(reply.result);
      var own := ResultName(graph, base, reply.name);
      if |own| == 0 {
        return Err(Anonymous);
      }
      if !Pascal(own) {
        return Err(NotPascal(own));
      }
      if Renamed(graph, base, reply.name) {
        r := RenamedSchema(reply, base, own, given);
        return;
      }
      hide Walkable, Walked, Found, Steady, Resolved, Reaches, Justified, Shape, Ready, AddsTypes, Pascal, ItemOf,
        ReplyBlames, Renamed;
      ghost var before := Now();
      ReadyOfSteady(graph, measure, given, before);
      r := TypeSchema(base);
      if r.Ok? {
        DirectAdds(graph, measure, given, before, Now(), reply, r.value);
      } else {
        JustifiedBlames(graph, measure, given, reply, before, r.error);
      }
    }

    /** A result under a name that is not its type's own. */
    method RenamedSchema(reply: Reply, base: TypeId, own: string, ghost given: map<string, Schema>)
      returns (r: Result<Schema, Failure>)
      requires Fit() && ReplyOver(graph, reply) && Settled(given) && Renames(graph, measure, reply, own, base)
      modifies this
      ensures r.Ok? ==> Walked(graph, measure, old(Now()), Now()) && Resolved(r.value, Now())
      ensures r.Ok? ==> r.value == Ref(own, AsType(base)) && ItemOf(graph, measure, reply) == Some(r.value)
      ensures r.Ok? ==> AddsTypes(graph, measure, given, old(Now()), Now(), reply)
      ensures r.Err? ==> ReplyBlames(graph, measure, given, reply, old(Now()), r.error)
    {
      ghost var before := Now();
      ReadyOfSteady(graph, measure, given, before);
      if own in owners {
        if owners[own] != base {
          assert Claimed(before, own, AsType(owners[own]));
          return Err(NameTaken(own, owners[own], base));
        }
        WalkedReflexive(graph, measure, before);
        AgainAdds(graph, measure, given, before, reply, base, own);
        return Ok(Ref(own, AsType(base)));
      }
      hide Walkable, Walked, Found, Steady, Resolved, Reaches, Justified, Body, AddsTypes, Ready, ItemOf, ReplyBlames;
      ReadyOwning(graph, before, own, base);
      owners := owners[own := base];
      r := SchemaFor(base);
      if r.Ok? {
        RenamedAdds(graph, measure, given, before, Now(), reply, base, own, r.value);
        schemas := schemas[own := OfType(r.value, base)];
        r := Ok(Ref(own, AsType(base)));
      } else {
        RenamedBlames(graph, measure, given, reply, before, own, base, r.error);
      }
    }

    /** A request body gets a schema of its own that requires nothing. A name
        that already is a request's is used again for the same type only; a name
        that is a response's is refused. */
    method InputSchema(t: TypeId, name: string, ghost given: map<string, Schema>) returns (r: Result<Schema, Failure>)
      requires Fit() && Has(graph, t) && Settled(given)
      modifies this
      ensures r.Ok? ==> Settled(given) && Keeps(old(Now()), Now()) && Resolved(r.value, Now())
      ensures r.Ok? ==> AddsRequest(graph, measure, old(Now()), Now(), t, name)
      ensures var base := Deref(graph, measure, t);
        var own := InputName(graph, base, name);
        && (r.Ok? ==> r.value == Ref(own, AsInput(base)) && StructShape(graph, measure, base).Some?)
        && (r.Ok? && own in old(inputs) ==> Now() == old(Now()))
        && (r.Ok? && own !in old(inputs) ==>
              && own in schemas && schemas[own].Input? && schemas[own].source == base
              && RequiresNothing(graph, measure, schemas[own].schema, base))
        && (KindOf(graph, base).Struct? && Pascal(own) && own !in old(inputs) && own in old(owners) ==>
              r == Err(InputClash(own)))
      ensures r.Err? ==> RequestBlames(graph, measure, t, name, old(Now()), r.error)
    {
      hide Walked, Found, Steady, Resolved, Reaches, Justified, AddsRequest, StructShape, Ready, Keeps, Lenient, RequiresNothing;
      var base := Dereference(t);
      if !KindOf(graph, base).Struct? {
        return Err(NotStruct(base));
      }
      var own := InputName(graph, base, name);
      if |own| == 0 {
        return Err(Anonymous);
      }
      if !Pascal(own) {
        return Err(NotPascal(own));
      }
      ghost var before := Now();
      if own in inputs {
        if inputs[own] != base {
          assert Claimed(before, own, AsInput(inputs[own]));
          return Err(InputClash(own));
        }
        RequestAgain(graph, measure, given, before, t, name);
        return Ok(Ref(own, AsInput(base)));
      }
      if own in owners {
        assert Claimed(before, own, AsType(owners[own]));
        return Err(InputClash(own));
      }
      TakeInput(graph, measure, given, before, own, base);
      inputs := inputs[own := base];
      r := SchemaFor(base);
      if r.Ok? {
        BodyOfStruct(graph, measure, base);
        RequestFiled(graph, measure, given, before, Now(), t, name, base, own, r.value);
        LenientRequiresNothing(graph, measure, base);
        schemas := schemas[own := Input(Lenient(r.value), base)];
        r := Ok(Ref(own, AsInput(base)));
      } else {
        RequestJustified(graph, measure, t, name, before, own, base, r.error);
      }
    }

    /** The envelope's result and the name its envelope is called after. */
    method ResultSchema(reply: Reply, ghost given: map<string, Schema>) returns (r: Result<(Schema, string), Failure>)
      requires Fit() && ReplyOver(graph, reply) && reply.Wrapped? && Settled(given)
      modifies this
      ensures r.Ok? ==> Settled(given) && Keeps(old(Now()), Now()) && Resolved(r.value.0, Now())
      ensures r.Ok? ==> (Some(r.value.0), r.value.1) == Enveloped(graph, measure, reply)
      ensures r.Ok? ==> AddsResult(graph, measure, given, old(Now()), Now(), reply)
      ensures r.Err? ==> ReplyBlames(graph, measure, given, reply, old(Now()), r.error)
    {
      hide Walkable, Steady, Resolved, Keeps, NamedShape, Walked, PageOf, AddsTypes, AddsResult, ReplyBlames, Pascal;
      ghost var before := Now();
      var item := NamedSchema(reply, given);
      if item.Err? {
        return Err(item.error);
      }
      WalkedSteady(graph, measure, given, before, Now());
      var base := Dereference(reply.result);
      var own := ResultName(graph, base, reply.name);
      ghost var middle := Now();
      if !reply.list {
        KeepsReflexive(middle);
        PageAdded(graph, measure, given, before, middle, middle, reply);
        return Ok((item.value, own));
      }
      own := own + "List";
      if own in schemas {
        if !IsList(schemas[own]) {
          TakenIsBlamed(graph, measure, given, before, middle, reply, own);
          return Err(PageTaken(own));
        }
      }
      AddPage(own, item.value, given);
      KeepsTransitive(before, middle, Now());
      PageAdded(graph, measure, given, before, middle, Now(), reply);
      r := Ok((Ref(own, AsPage(item.value)), own));
    }

    method AddPage(name: string, item: Schema, ghost given: map<string, Schema>)
      requires Fit() && Settled(given) && Resolved(item, Now())
      modifies this
      ensures Settled(given) && Keeps(old(Now()), Now()) && Resolved(Ref(name, AsPage(item)), Now())
      ensures Now() == old(Now()).(schemas := old(schemas)[name := Page(PageOf(item))],
                                   pages := old(pages) + {(name, item)})
    {
      hide Walkable, Steady, Resolved, Keeps, PageOf;
      FilePage(graph, measure, given, Now(), name, item);
      schemas := schemas[name := Page(PageOf(item))];
      pages := pages + {(name, item)};
      KnownIsResolved(name, AsPage(item), Now());
    }

    method AddEnvelope(name: string, result: Schema, ghost given: map<string, Schema>)
      requires Fit() && Settled(given) && Resolved(result, Now())
      modifies this
      ensures Settled(given) && Keeps(old(Now()), Now()) && Resolved(Ref(name, AsEnvelope(result)), Now())
      ensures Now() == old(Now()).(schemas := old(schemas)[name := Envelope(EnvelopeOf(result))],
                                   envelopes := old(envelopes) + {(name, result)})
    {
      hide Walkable, Steady, Resolved, Keeps, EnvelopeOf;
      FileEnvelope(graph, measure, given, Now(), name, result);
      schemas := schemas[name := Envelope(EnvelopeOf(result))];
      envelopes := envelopes + {(name, result)};
      KnownIsResolved(name, AsEnvelope(result), Now());
    }

    /** The success reply: its envelope is filed over whatever had its name. */
    method AddReply(reply: Reply, ghost given: map<string, Schema>) returns (r: Result<seq<Schema>, Failure>)
      requires Fit() && ReplyOver(graph, reply) && Settled(given)
      modifies this
      ensures r.Ok? ==> Settled(given) && Keeps(old(Now()), Now()) && r.value == ReplyRefs(graph, measure, reply)
      ensures r.Ok? ==> forall i :: 0 <= i < |r.value| ==> Resolved(r.value[i], Now())
      ensures r.Ok? ==> AddsReply(graph, measure, given, old(Now()), Now(), reply)
      ensures r.Err? ==> ReplyBlames(graph, measure, given, reply, old(Now()), r.error)
    {
      hide Walkable, Steady, Resolved, Keeps, EnvelopeOf, Enveloped, AddsResult, AddsReply, ReplyBlames, ReplyAsks;
      ghost var before := Now();
      if reply.Bare? {
        NothingReplied(graph, measure, given, before, reply);
        return Ok([]);
      }
      var result := ResultSchema(reply, given);
      if result.Err? {
        return Err(result.error);
      }
      ghost var after := Now();
      var name := result.value.1 + "Success";
      AddEnvelope(name, result.value.0, given);
      KeepsTransitive(before, after, Now());
      EnvelopeAdded(graph, measure, given, before, after, Now(), reply);
      r := Ok([Ref(name, AsEnvelope(result.value.0))]);
    }

    /** The references an operation leaves in its path item. */
    method AddOperation(op: Operation, ghost given: map<string, Schema>) returns (r: Result<seq<Schema>, Failure>)
      requires Fit() && OperationOver(graph, op) && Settled(given)
      modifies this
      ensures r.Ok? ==> Settled(given) && Keeps(old(Now()), Now())
      ensures r.Ok? ==> r.value == RequestRefs(graph, measure, op) + ReplyRefs(graph, measure, op.reply)
      ensures r.Ok? ==> forall i :: 0 <= i < |r.value| ==> Resolved(r.value[i], Now())
      ensures r.Ok? ==> AddsOperation(graph, measure, given, old(Now()), Now(), op)
      ensures r.Err? ==> OperationBlames(graph, measure, given, op, old(Now()), r.error)
    {
      hide Walkable, Steady, Resolved, Keeps, AddsRequest, AddsReply, AddsOperation, RequestBlames, ReplyBlames, ReplyRefs;
      if op.refused {
        return Err(Refused);
      }
      ghost var before := Now();
      if op.request.None? {
        r := AddReply(op.reply, given);
        if r.Ok? {
          OnlyReplied(graph, measure, given, before, Now(), op);
          assert [] + r.value == r.value;
        }
        return;
      }
      var input := InputSchema(op.request.value, op.requestName, given);
      if input.Err? {
        return Err(input.error);
      }
      ghost var middle := Now();
      var reply := AddReply(op.reply, given);
      if reply.Err? {
        return Err(reply.error);
      }
      KeepsTransitive(before, middle, Now());
      ResolvedKept(input.value, middle, Now());
      BothAdded(graph, measure, given, before, middle, Now(), op);
      r := Ok([input.value] + reply.value);
    }

    // ----- The walk

    /** The schema of a field or element type: what the type alone says it is,
        with every named struct it mentions owned and filed on the way. */
    method TypeSchema(t: TypeId) returns (r: Result<Schema, Failure>)
      requires Fit() && Has(graph, t) && Ready(graph, Now())
      modifies this
      ensures r.Ok? ==> Walked(graph, measure, old(Now()), Now()) && Resolved(r.value, Now())
      ensures r.Ok? ==> Found(graph, measure, old(Now()), Now(), r.value)
      ensures r.Ok? ==> Shape(graph, measure, t) == Some(r.value)
      ensures r.Err? ==> Justified(graph, measure, r.error, old(Now()))
      decreases Names(graph) - owners.Keys, measure.rank(t), 0, 0, 3
    {
      var base, nullable := t, false;
      while KindOf(graph, base).Pointer?
        invariant Has(graph, base) && Deref(graph, measure, base) == Deref(graph, measure, t)
        invariant nullable <==> base != t
        invariant base == t || (KindOf(graph, t).Pointer? && measure.rank(base) < measure.rank(t))
        decreases measure.rank(base)
      {
        assert Elements(graph, measure, base);
        nullable := true;
        base := KindOf(graph, base).elem;
      }
      r := ValueSchema(base);
      if r.Ok? && nullable {
        HeldFound(graph, measure, old(Now()), Now(), r.value);
        r := Ok(Nullable(r.value));
      }
    }

    method ValueSchema(t: TypeId) returns (r: Result<Schema, Failure>)
      requires Fit() && Has(graph, t) && Ready(graph, Now())
      modifies this
      ensures r.Ok? ==> Walked(graph, measure, old(Now()), Now()) && Resolved(r.value, Now())
      ensures r.Ok? ==> Found(graph, measure, old(Now()), Now(), r.value)
      ensures r.Ok? ==> ValueShape(graph, measure, t) == Some(r.value)
      ensures r.Err? ==> Justified(graph, measure, r.error, old(Now()))
      decreases Names(graph) - owners.Keys, measure.rank(t), 0, 0, 2
    {
      var def := graph.types[t];
      GrewReflexive(graph, measure, Now());
      if def.name != "" && def.pkg != "" {
        if Key(def) in graph.custom {
          return Ok(graph.custom[Key(def)]);
        }
      }
      match def.special
      case Time => return Ok(Scalar("date-time"));
      case RawMessage => return Ok(Scalar("any"));
      case CustomJson => return Err(Underivable(t));
      case CustomText => return Err(Underivable(t));
      case Plain => r := KindSchema(t);
    }

    method KindSchema(t: TypeId) returns (r: Result<Schema, Failure>)
      requires Fit() && Has(graph, t) && Ready(graph, Now())
      requires ValueShape(graph, measure, t) == KindShape(graph, measure, t)
      modifies this
      ensures r.Ok? ==> Walked(graph, measure, old(Now()), Now()) && Resolved(r.value, Now())
      ensures r.Ok? ==> Found(graph, measure, old(Now()), Now(), r.value)
      ensures r.Ok? ==> KindShape(graph, measure, t) == Some(r.value)
      ensures r.Err? ==> Justified(graph, measure, r.error, old(Now()))
      decreases Names(graph) - owners.Keys, measure.rank(t), 0, 0, 1
    {
      hide Walked, Found, Resolved, Justified, Ready;
      assert Elements(graph, measure, t);
      NothingWalked(graph, measure, Now());
      match KindOf(graph, t)
      case Text => return Ok(Scalar("string"));
      case Truth => return Ok(Scalar("boolean"));
      case Byte => return Ok(Scalar("integer"));
      case Whole => return Ok(Scalar("integer"));
      case Wide => return Ok(Scalar("int64"));
      case Real => return Ok(Scalar("number"));
      case Any => return Ok(Scalar("any"));
      case Slice(e) => r := ItemsSchema(t, e);
      case FixedArray(e) => r := ItemsSchema(t, e);
      case Dict(textKey, e) =>
        if !textKey {
          NotDerived(graph, measure, t, Now());
          return Err(Underivable(t));
        }
        r := TypeSchema(e);
        if r.Ok? {
          HeldFound(graph, measure, old(Now()), Now(), r.value);
          r := Ok(DictOf(r.value));
        }
      case Struct(_) =>
        if NameOf(graph, t) == "" {
          r := StructSchema(t);
        } else {
          r := NamedStruct(t);
        }
      case _ =>
        NotDerived(graph, measure, t, Now());
        return Err(Underivable(t));
    }

    method ItemsSchema(t: TypeId, e: TypeId) returns (r: Result<Schema, Failure>)
      requires Fit() && Has(graph, t) && Has(graph, e) && Ready(graph, Now())
      requires measure.rank(e) < measure.rank(t)
      modifies this
      ensures r.Ok? ==> Walked(graph, measure, old(Now()), Now()) && Resolved(r.value, Now())
      ensures r.Ok? ==> Found(graph, measure, old(Now()), Now(), r.value)
      ensures r.Ok? ==> ItemsShape(graph, measure, t, e) == Some(r.value)
      ensures r.Err? ==> Justified(graph, measure, r.error, old(Now()))
      decreases Names(graph) - owners.Keys, measure.rank(t), 0, 0, 0
    {
      if KindOf(graph, e).Byte? {
        GrewReflexive(graph, measure, Now());
        return Ok(Scalar("base64"));
      }
      r := TypeSchema(e);
      if r.Ok? {
        HeldFound(graph, measure, old(Now()), Now(), r.value);
        r := Ok(ListOf(r.value));
      }
    }

    /** A named struct is owned before its fields are visited, so a type that
        leads back to itself finds its own name taken and is only referred to. */
    method NamedStruct(t: TypeId) returns (r: Result<Schema, Failure>)
      requires Fit() && Has(graph, t) && Ready(graph, Now())
      requires KindOf(graph, t).Struct? && NameOf(graph, t) != ""
      modifies this
      ensures r.Ok? ==> Walked(graph, measure, old(Now()), Now()) && Found(graph, measure, old(Now()), Now(), r.value)
      ensures r.Ok? ==> r.value == Ref(NameOf(graph, t), AsType(t)) && Resolved(r.value, Now())
      ensures r.Err? ==> Justified(graph, measure, r.error, old(Now()))
      decreases Names(graph) - owners.Keys, measure.rank(t), 0, 0, 0
    {
      var name := NameOf(graph, t);
      if name in owners {
        if owners[name] != t {
          return Err(Clash(name, owners[name], t));
        }
        GrewReflexive(graph, measure, Now());
        return Ok(Ref(name, AsType(t)));
      }
      ghost var before := Now();
      ReadyOwning(graph, before, name, t);
      assert name in Names(graph) - owners.Keys;
      owners := owners[name := t];
      r := StructSchema(t);
      if r.Ok? {
        NamedAdds(graph, measure, before, Now(), name, t, r.value);
        schemas := schemas[name := OfType(r.value, t)];
        r := Ok(Ref(name, AsType(t)));
      } else {
        JustifiedOwning(graph, measure, r.error, before, name, t);
      }
    }

    method StructSchema(t: TypeId) returns (r: Result<Schema, Failure>)
      requires Fit() && Has(graph, t) && Ready(graph, Now())
      modifies this
      ensures r.Ok? ==> Walked(graph, measure, old(Now()), Now()) && Resolved(r.value, Now())
      ensures r.Ok? ==> Found(graph, measure, old(Now()), Now(), r.value)
      ensures r.Ok? ==> StructShape(graph, measure, t) == Some(r.value)
      ensures r.Err? ==> Justified(graph, measure, r.error, old(Now()))
      decreases Names(graph) - owners.Keys, measure.spread(t), measure.depth(t), |Fields(graph, t)|, 2
    {
      hide Walked, Found, Resolved, Justified, Ready, Gather;
      var c := CollectFields(t, EMPTY);
      match c
      case Err(e) =>
        GatheredNothing(graph, measure, t, old(Now()), e);
        r := Err(e);
      case Ok(bag) =>
        BagIsResolved(bag, Now());
        r := Ok(AsObject(bag));
    }

    method CollectFields(t: TypeId, bag: Bag) returns (r: Result<Bag, Failure>)
      requires Fit() && Has(graph, t) && Ready(graph, Now()) && BagResolved(bag, Now())
      modifies this
      ensures r.Ok? ==> Walked(graph, measure, old(Now()), Now()) && BagResolved(r.value, Now())
      ensures r.Ok? ==> Extends(bag, r.value) && Found(graph, measure, old(Now()), Now(), AsObject(r.value))
      ensures r.Ok? ==> Gather(graph, measure, t, 0, bag) == Some(r.value)
      ensures r.Err? ==>
        || Justified(graph, measure, r.error, old(Now()))
        || (r.error.Duplicate? && Gather(graph, measure, t, 0, bag).None?)
      decreases Names(graph) - owners.Keys, measure.spread(t), measure.depth(t), |Fields(graph, t)|, 1
    {
      hide Walked, Ready, BagResolved, Justified, GatherField, Walkable, Found, Keeps;
      var i := 0;
      var filled := bag;
      WalkedReflexive(graph, measure, Now());
      FoundNothing(graph, measure, Now(), AsObject(bag));
      KeepsReflexive(Now());
      while i < |Fields(graph, t)|
        invariant 0 <= i <= |Fields(graph, t)|
        invariant Walked(graph, measure, old(Now()), Now()) && BagResolved(filled, Now()) && Keeps(old(Now()), Now())
        invariant Extends(bag, filled) && Found(graph, measure, old(Now()), Now(), AsObject(filled))
        invariant Gather(graph, measure, t, 0, bag) == Gather(graph, measure, t, i, filled)
      {
        ghost var before := Now();
        OwnersGrow(graph, measure, old(Now()), before);
        r := CollectField(t, i, filled);
        if r.Err? {
          JustifiedSooner(graph, measure, r.error, old(Now()), before, AsObject(filled));
          return;
        }
        OnlyOwners(graph, measure, before, Now());
        WalkedTransitive(graph, measure, old(Now()), before, Now());
        FoundMore(graph, measure, old(Now()), before, Now(), filled, r.value);
        KeepsTransitive(old(Now()), before, Now());
        filled := r.value;
        i := i + 1;
      }
      r := Ok(filled);
    }

    method CollectField(t: TypeId, i: nat, bag: Bag) returns (r: Result<Bag, Failure>)
      requires Fit() && Has(graph, t) && i < |Fields(graph, t)| && Ready(graph, Now()) && BagResolved(bag, Now())
      modifies this
      ensures r.Ok? ==> Walked(graph, measure, old(Now()), Now()) && BagResolved(r.value, Now())
      ensures r.Ok? ==> Extends(bag, r.value) && Found(graph, measure, old(Now()), Now(), AsObject(r.value))
      ensures r.Ok? ==> GatherField(graph, measure, t, i, bag) == Some(r.value)
      ensures r.Err? ==>
        || Justified(graph, measure, r.error, old(Now()))
        || (r.error.Duplicate? && GatherField(graph, measure, t, i, bag).None?)
      decreases Names(graph) - owners.Keys, measure.spread(t), measure.depth(t), |Fields(graph, t)| - i, 0
    {
      var f := Fields(graph, t)[i];
      assert GroundedField(graph, measure, t, f);
      GrewReflexive(graph, measure, Now());
      FoundNothing(graph, measure, Now(), AsObject(bag));
      if f.skipped {
        return Ok(bag);
      }
      if f.embedded && f.tag == "" {
        var inner := Dereference(f.typ);
        if KindOf(graph, inner).Struct? {
          r := CollectFields(inner, bag);
          return;
        }
      }
      if !f.exported {
        return Ok(bag);
      }
      if JsonName(f) in bag.properties {
        return Err(Duplicate(JsonName(f)));
      }
      ghost var before := Now();
      var s := FieldSchema(f);
      if s.Err? {
        return Err(s.error);
      }
      BagKept(bag, before, Now());
      FoundField(graph, measure, before, Now(), bag, f, s.value);
      return Ok(Put(bag, f, s.value));
    }

    method FieldSchema(f: Field) returns (r: Result<Schema, Failure>)
      requires Fit() && Has(graph, f.typ) && Ready(graph, Now())
      modifies this
      ensures r.Ok? ==> Walked(graph, measure, old(Now()), Now()) && Resolved(r.value, Now())
      ensures r.Ok? ==> Found(graph, measure, old(Now()), Now(), r.value)
      ensures r.Ok? ==> FieldShape(graph, measure, f) == Some(r.value)
      ensures r.Err? ==> Justified(graph, measure, r.error, old(Now()))
      decreases Names(graph) - owners.Keys, measure.rank(f.typ), 0, 0, 4
    {
      if f.asText {
        GrewReflexive(graph, measure, Now());
        return Ok(Scalar("string"));
      }
      r := TypeSchema(f.typ);
      if r.Ok? && NilIsNull(graph, f.typ) {
        HeldFound(graph, measure, old(Now()), Now(), r.value);
        r := Ok(Nullable(r.value));
      }
    }

    method Dereference(t: TypeId) returns (d: TypeId)
      requires Fit() && Has(graph, t)
      ensures d == Deref(graph, measure, t)
    {
      d := t;
      while KindOf(graph, d).Pointer?
        invariant Has(graph, d) && Deref(graph, measure, d) == Deref(graph, measure, t)
        decreases measure.rank(d)
      {
        assert Elements(graph, measure, d);
        d := KindOf(graph, d).elem;
      }
    }
  }
}

/** What a list of operations uses each component name for, told from the
    operations and the types alone (libs/go/arda-openapi/openapi.go). */
module OpenApiClaims {
  import opened Common
  import opened OpenApi
  import opened OpenApiTables

  // ----- Operations and the names they ask for

  /** `refused` stands for the checks of an operation that read no table. */
  datatype Operation = Operation(refused: bool, request: Option<TypeId>, requestName: string, reply: Reply)

  datatype Reply = Bare | Wrapped(result: TypeId, name: string, list: bool)

  predicate OperationOver(g: Graph, op: Operation) {
    && (op.request.Some? ==> Has(g, op.request.value))
    && ReplyOver(g, op.reply)
  }

  predicate ReplyOver(g: Graph, reply: Reply) { reply.Wrapped? ==> Has(g, reply.result) }

  /** ^[A-Z][A-Za-z0-9]*$ */
  predicate Pascal(name: string) {
    && name != ""
    && 'A' <= name[0] <= 'Z'
    && (forall i :: 0 <= i < |name| ==>
          'A' <= name[i] <= 'Z' || 'a' <= name[i] <= 'z' || '0' <= name[i] <= '9')
  }

  predicate EndsWith(s: string, suffix: string) {
    |suffix| <= |s| && s[|s| - |suffix|..] == suffix
  }

  /** The name of a request type's own input schema. */
  function InputName(g: Graph, base: TypeId, name: string): string
    requires Has(g, base)
  {
    if name != "" then name
    else
      var own := NameOf(g, base);
      if own == "" || EndsWith(own, "Request") || EndsWith(own, "Input") then own else own + "Input"
  }

  /** A request is called what it is asked to be; otherwise its type's name, with
      Input behind it unless it ends in Request or Input already. */
  lemma InputNames(g: Graph, base: TypeId, asked: string, stem: string)
    requires Has(g, base)
    ensures asked != "" ==> InputName(g, base, asked) == asked
    ensures NameOf(g, base) == stem + "Request" ==> InputName(g, base, "") == stem + "Request"
    ensures NameOf(g, base) == stem + "Input" ==> InputName(g, base, "") == stem + "Input"
    ensures NameOf(g, base) == "" ==> InputName(g, base, "") == ""
    ensures NameOf(g, base) == stem && stem != "" && (forall k :: stem != k + "Request" && stem != k + "Input") ==>
      InputName(g, base, "") == stem + "Input"
  {
    Ends(NameOf(g, base), stem, "Request");
    Ends(NameOf(g, base), stem, "Input");
    hide EndsWith;
    if EndsWith(stem, "Request") { Ends(stem, "", "Request"); }
    if EndsWith(stem, "Input") { Ends(stem, "", "Input"); }
  }

  lemma Ends(s: string, stem: string, suffix: string)
    ensures s == stem + suffix ==> EndsWith(s, suffix)
    ensures EndsWith(s, suffix) ==> s == s[..|s| - |suffix|] + suffix
  {}

  function ResultName(g: Graph, base: TypeId, name: string): string
    requires Has(g, base)
  {
    if name != "" then name else NameOf(g, base)
  }

  /** Types that get their component under the name asked for rather than
      their own. */
  predicate Renamed(g: Graph, base: TypeId, name: string)
    requires Has(g, base)
  {
    (KindOf(g, base).Struct? && ResultName(g, base, name) != NameOf(g, base)) || KindOf(g, base).Dict?
  }

  /** What an operation's result is referred to as. */
  ghost function NamedShape(g: Graph, m: Measure, base: TypeId, name: string): Option<Schema>
    requires Walkable(g, m) && Has(g, base)
  {
    if Renamed(g, base, name) then Some(Ref(ResultName(g, base, name), AsType(base))) else Shape(g, m, base)
  }

  // ----- The types a schema leads to

  predicate IsNamed(g: Graph, t: TypeId, name: string) {
    Has(g, t) && KindOf(g, t).Struct? && NameOf(g, t) == name && name != ""
  }

  /** The schema refers to the named struct u. */
  predicate Meets(g: Graph, s: Schema, u: TypeId) {
    Has(g, u) && IsNamed(g, u, NameOf(g, u)) && Mentions(s, NameOf(g, u), AsType(u))
  }

  /** From each type to one its schema refers to. */
  ghost predicate Path(g: Graph, m: Measure, p: seq<TypeId>)
    requires Walkable(g, m)
  {
    && |p| > 0
    && (forall i :: 0 <= i < |p| ==> Has(g, p[i]))
    && (forall i :: 0 <= i < |p| - 1 ==> Body(g, m, p[i]).Some? && Meets(g, Body(g, m, p[i]).value, p[i + 1]))
  }

  ghost predicate Reaches(g: Graph, m: Measure, s: Schema, u: TypeId)
    requires Walkable(g, m)
  {
    exists p :: |p| > 0 && Path(g, m, p) && Meets(g, s, p[0]) && p[|p| - 1] == u
  }

  lemma ReachesMet(g: Graph, m: Measure, s: Schema, u: TypeId)
    requires Walkable(g, m) && Meets(g, s, u)
    ensures Reaches(g, m, s, u)
  {
    hide Walkable, Meets;
    assert Has(g, u) by { MetIsHad(g, s, u); }
    assert Path(g, m, [u]) && [u][0] == u && [u][|[u]| - 1] == u;
  }

  lemma MetIsHad(g: Graph, s: Schema, u: TypeId)
    requires Meets(g, s, u)
    ensures Has(g, u) && IsNamed(g, u, NameOf(g, u))
  {
  }

  lemma ReachesThrough(g: Graph, m: Measure, s: Schema, t: TypeId, u: TypeId)
    requires Walkable(g, m) && Meets(g, s, t) && Has(g, t) && Body(g, m, t).Some?
    requires Reaches(g, m, Body(g, m, t).value, u)
    ensures Reaches(g, m, s, u)
  {
    hide Walkable, Meets, Body;
    var p :| |p| > 0 && Path(g, m, p) && Meets(g, Body(g, m, t).value, p[0]) && p[|p| - 1] == u;
    var q := [t] + p;
    assert forall i :: 0 < i < |q| ==> q[i] == p[i - 1];
    assert Path(g, m, q) && q[0] == t && q[|q| - 1] == u;
  }

  /** A schema leads wherever one it holds leads. */
  lemma ReachesIn(g: Graph, m: Measure, inner: Schema, outer: Schema, u: TypeId)
    requires Walkable(g, m) && Reaches(g, m, inner, u)
    requires forall name, use :: Mentions(inner, name, use) ==> Mentions(outer, name, use)
    ensures Reaches(g, m, outer, u)
  {
    hide Walkable, Path, Mentions;
    var p :| |p| > 0 && Path(g, m, p) && Meets(g, inner, p[0]) && p[|p| - 1] == u;
    assert Meets(g, outer, p[0]);
  }

  // ----- What one operation uses names for

  /** A request takes the name of its input schema, and the names of all named
      structs its type leads to. */
  ghost predicate RequestAsks(g: Graph, m: Measure, t: TypeId, asked: string, name: string, use: Use)
    requires Walkable(g, m) && Has(g, t)
  {
    var base := Deref(g, m, t);
    match use
    case AsInput(b) => b == base && name == InputName(g, base, asked)
    case AsType(u) =>
      IsNamed(g, u, name) && StructShape(g, m, base).Some? && Reaches(g, m, StructShape(g, m, base).value, u)
    case _ => false
  }

  /** The schema whose types an operation's result registers; nothing is walked
      for a result that is a hand-written component. */
  ghost function ReplyRoot(g: Graph, m: Measure, given: map<string, Schema>, reply: Reply): Option<Schema>
    requires Walkable(g, m) && ReplyOver(g, reply) && reply.Wrapped?
  {
    var base := Deref(g, m, reply.result);
    if !Renamed(g, base, reply.name) then Shape(g, m, base)
    else if ResultName(g, base, reply.name) in given then None
    else Body(g, m, base)
  }

  ghost function ItemOf(g: Graph, m: Measure, reply: Reply): Option<Schema>
    requires Walkable(g, m) && ReplyOver(g, reply) && reply.Wrapped?
  {
    NamedShape(g, m, Deref(g, m, reply.result), reply.name)
  }

  ghost function OwnName(g: Graph, m: Measure, reply: Reply): string
    requires Walkable(g, m) && ReplyOver(g, reply) && reply.Wrapped?
  {
    ResultName(g, Deref(g, m, reply.result), reply.name)
  }

  /** What the envelope holds, and the name the envelope is called after. */
  ghost function Enveloped(g: Graph, m: Measure, reply: Reply): (r: (Option<Schema>, string))
    requires Walkable(g, m) && ReplyOver(g, reply) && reply.Wrapped?
  {
    var own, item := OwnName(g, m, reply), ItemOf(g, m, reply);
    if !reply.list then (item, own)
    else (match item case None => None case Some(s) => Some(Ref(own + "List", AsPage(s))), own + "List")
  }

  /** A reply takes the name asked for when that is not the type's own, the names
      of all named structs its type leads to, the name of its list page, and the
      name of its envelope. */
  ghost predicate ReplyAsks(g: Graph, m: Measure, given: map<string, Schema>, reply: Reply, name: string, use: Use)
    requires Walkable(g, m) && ReplyOver(g, reply)
  {
    reply.Wrapped?
    && match use
       case AsType(u) =>
         || Renames(g, m, reply, name, u)
         || (IsNamed(g, u, name) && ReplyRoot(g, m, given, reply).Some?
             && Reaches(g, m, ReplyRoot(g, m, given, reply).value, u))
       case AsPage(item) => reply.list && ItemOf(g, m, reply) == Some(item) && name == OwnName(g, m, reply) + "List"
       case AsEnvelope(result) =>
         Enveloped(g, m, reply).0 == Some(result) && name == Enveloped(g, m, reply).1 + "Success"
       case _ => false
  }

  ghost predicate Renames(g: Graph, m: Measure, reply: Reply, name: string, u: TypeId)
    requires Walkable(g, m) && ReplyOver(g, reply)
  {
    && reply.Wrapped? && u == Deref(g, m, reply.result) && Renamed(g, u, reply.name)
    && name == ResultName(g, u, reply.name)
  }

  ghost predicate OperationAsks(g: Graph, m: Measure, given: map<string, Schema>, op: Operation, name: string, use: Use)
    requires Walkable(g, m) && OperationOver(g, op)
  {
    || (op.request.Some? && RequestAsks(g, m, op.request.value, op.requestName, name, use))
    || ReplyAsks(g, m, given, op.reply, name, use)
  }

  // ----- What a document uses names for

  ghost predicate OperationsOver(g: Graph, ops: seq<Operation>) {
    forall i :: 0 <= i < |ops| ==> OperationOver(g, ops[i])
  }

  /** Standard and hand-written components take their names; the rest is what
      the operations ask for. */
  ghost predicate Uses(g: Graph, m: Measure, given: map<string, Schema>, ops: seq<Operation>, name: string, use: Use)
    requires Walkable(g, m) && OperationsOver(g, ops)
  {
    || UsedFirst(g, given, name, use)
    || exists i :: 0 <= i < |ops| && OperationAsks(g, m, given, ops[i], name, use)
  }

  predicate UsedFirst(g: Graph, given: map<string, Schema>, name: string, use: Use) {
    (use == AsGiven && name in STANDARD) || (use == AsType(g.anyMap) && name in given)
  }

  /** No name is used for two things. */
  ghost predicate Apart(g: Graph, m: Measure, given: map<string, Schema>, ops: seq<Operation>)
    requires Walkable(g, m) && OperationsOver(g, ops)
  {
    forall n, u, v :: Uses(g, m, given, ops, n, u) && Uses(g, m, given, ops, n, v) ==> u == v
  }

  /** The references the paths of a document hold, in order. */
  ghost function RequestRefs(g: Graph, m: Measure, op: Operation): seq<Schema>
    requires Walkable(g, m) && OperationOver(g, op)
  {
    if op.request.None? then []
    else
      var base := Deref(g, m, op.request.value);
      [Ref(InputName(g, base, op.requestName), AsInput(base))]
  }

  ghost function ReplyRefs(g: Graph, m: Measure, reply: Reply): seq<Schema>
    requires Walkable(g, m) && ReplyOver(g, reply)
  {
    if reply.Bare? || Enveloped(g, m, reply).0.None? then []
    else [Ref(Enveloped(g, m, reply).1 + "Success", AsEnvelope(Enveloped(g, m, reply).0.value))]
  }

  /** The reference a reply leaves: to the envelope called after the name asked
      for or the result type's own, around the result itself or its list page.
      Structs under another name and maps are referred to by that name. */
  lemma ReplyExactly(g: Graph, m: Measure, reply: Reply)
    requires Walkable(g, m) && ReplyOver(g, reply) && reply.Wrapped?
    ensures var base := Deref(g, m, reply.result);
      var own := if reply.name != "" then reply.name else g.types[base].name;
      var item := if KindOf(g, base).Dict? || (KindOf(g, base).Struct? && own != g.types[base].name)
                  then Some(Ref(own, AsType(base))) else Shape(g, m, base);
      && ItemOf(g, m, reply) == item
      && (item.None? ==> ReplyRefs(g, m, reply) == [])
      && (item.Some? && !reply.list ==> ReplyRefs(g, m, reply) == [Ref(own + "Success", AsEnvelope(item.value))])
      && (item.Some? && reply.list ==>
            ReplyRefs(g, m, reply) == [Ref(own + "List" + "Success", AsEnvelope(Ref(own + "List", AsPage(item.value))))])
  {
    hide Walkable, Shape;
  }

  ghost function PathRefs(g: Graph, m: Measure, ops: seq<Operation>): seq<Schema>
    requires Walkable(g, m) && OperationsOver(g, ops)
  {
    if ops == [] then []
    else
      var n := |ops| - 1;
      PathRefs(g, m, ops[..n]) + (RequestRefs(g, m, ops[n]) + ReplyRefs(g, m, ops[n].reply))
  }

  lemma PathRefsMore(g: Graph, m: Measure, ops: seq<Operation>, i: nat)
    requires Walkable(g, m) && OperationsOver(g, ops) && i < |ops|
    ensures PathRefs(g, m, ops[..i + 1])
         == PathRefs(g, m, ops[..i]) + (RequestRefs(g, m, ops[i]) + ReplyRefs(g, m, ops[i].reply))
    ensures PathRefs(g, m, ops[..0]) == [] && ops[..|ops|] == ops
  {
    hide Walkable, RequestRefs, ReplyRefs;
    assert ops[..i + 1][..i] == ops[..i] && ops[..i + 1][i] == ops[i];
  }

  lemma UsesMore(g: Graph, m: Measure, given: map<string, Schema>, ops: seq<Operation>, i: nat)
    requires Walkable(g, m) && OperationsOver(g, ops) && i < |ops|
    ensures forall n, use :: Uses(g, m, given, ops[..i + 1], n, use)
                        <==> Uses(g, m, given, ops[..i], n, use) || OperationAsks(g, m, given, ops[i], n, use)
  {
    hide Walkable, OperationAsks, UsedFirst;
    var longer, shorter := ops[..i + 1], ops[..i];
    forall n, use
      ensures Uses(g, m, given, ops[..i + 1], n, use)
         <==> Uses(g, m, given, ops[..i], n, use) || OperationAsks(g, m, given, ops[i], n, use)
    {
      if j :| 0 <= j < |longer| && OperationAsks(g, m, given, longer[j], n, use) {
        if j < i { assert shorter[j] == longer[j]; }
      }
      if j :| 0 <= j < |shorter| && OperationAsks(g, m, given, shorter[j], n, use) {
        assert longer[j] == shorter[j];
      }
      if OperationAsks(g, m, given, ops[i], n, use) { assert longer[i] == ops[i]; }
    }
  }

  // ----- Tables and claims

  /** The tables hold the uses of `a` and those of a predicate besides. */
  ghost predicate AddsRequest(g: Graph, m: Measure, a: Tables, b: Tables, t: TypeId, asked: string)
    requires Walkable(g, m) && Has(g, t)
  {
    forall n, use :: Claimed(b, n, use) <==> Claimed(a, n, use) || RequestAsks(g, m, t, asked, n, use)
  }

  /** As far as the types of the result are walked. */
  ghost predicate AddsTypes(g: Graph, m: Measure, given: map<string, Schema>, a: Tables, b: Tables, reply: Reply)
    requires Walkable(g, m) && ReplyOver(g, reply)
  {
    forall n, use ::
      Claimed(b, n, use) <==> Claimed(a, n, use) || (use.AsType? && ReplyAsks(g, m, given, reply, n, use))
  }

  /** As far as the envelope is not filed. */
  ghost predicate AddsResult(g: Graph, m: Measure, given: map<string, Schema>, a: Tables, b: Tables, reply: Reply)
    requires Walkable(g, m) && ReplyOver(g, reply)
  {
    forall n, use ::
      Claimed(b, n, use) <==> Claimed(a, n, use) || (!use.AsEnvelope? && ReplyAsks(g, m, given, reply, n, use))
  }

  ghost predicate AddsReply(g: Graph, m: Measure, given: map<string, Schema>, a: Tables, b: Tables, reply: Reply)
    requires Walkable(g, m) && ReplyOver(g, reply)
  {
    forall n, use :: Claimed(b, n, use) <==> Claimed(a, n, use) || ReplyAsks(g, m, given, reply, n, use)
  }

  ghost predicate AddsOperation(g: Graph, m: Measure, given: map<string, Schema>, a: Tables, b: Tables, op: Operation)
    requires Walkable(g, m) && OperationOver(g, op)
  {
    forall n, use :: Claimed(b, n, use) <==> Claimed(a, n, use) || OperationAsks(g, m, given, op, n, use)
  }

  /** The tables hold exactly the uses of the operations. */
  ghost predicate Holds(g: Graph, m: Measure, given: map<string, Schema>, a: Tables, ops: seq<Operation>)
    requires Walkable(g, m) && OperationsOver(g, ops)
  {
    forall n, use :: Claimed(a, n, use) <==> Uses(g, m, given, ops, n, use)
  }

  lemma HoldsMore(g: Graph, m: Measure, given: map<string, Schema>, a: Tables, b: Tables, ops: seq<Operation>, i: nat)
    requires Walkable(g, m) && OperationsOver(g, ops) && i < |ops|
    requires Holds(g, m, given, a, ops[..i]) && AddsOperation(g, m, given, a, b, ops[i])
    ensures Holds(g, m, given, b, ops[..i + 1])
  {
    UsesMore(g, m, given, ops, i);
    hide Walkable, Uses, OperationAsks, Claimed;
  }

  lemma HeldIsApart(g: Graph, m: Measure, given: map<string, Schema>, a: Tables, ops: seq<Operation>)
    requires Walkable(g, m) && OperationsOver(g, ops) && Holds(g, m, given, a, ops)
    ensures Unshared(a) <==> Apart(g, m, given, ops)
  {
    hide Walkable, Uses, Claimed;
  }

  /** What a walk of a value may have owned: structs the value leads to, each
      under its own name. */
  ghost predicate Found(g: Graph, m: Measure, a: Tables, b: Tables, s: Schema)
    requires Walkable(g, m)
  {
    forall n :: n in b.owners && n !in a.owners ==> IsNamed(g, b.owners[n], n) && Reaches(g, m, s, b.owners[n])
  }

  lemma FoundNothing(g: Graph, m: Measure, a: Tables, s: Schema)
    requires Walkable(g, m)
    ensures Found(g, m, a, a, s)
  {
  }

  lemma FoundIn(g: Graph, m: Measure, a: Tables, b: Tables, inner: Schema, outer: Schema)
    requires Walkable(g, m) && Found(g, m, a, b, inner)
    requires forall name, use :: Mentions(inner, name, use) ==> Mentions(outer, name, use)
    ensures Found(g, m, a, b, outer)
  {
    hide Walkable, Reaches, Mentions, IsNamed;
    forall n | n in b.owners && n !in a.owners ensures Reaches(g, m, outer, b.owners[n]) {
      ReachesIn(g, m, inner, outer, b.owners[n]);
    }
  }

  lemma FoundTransitive(g: Graph, m: Measure, a: Tables, b: Tables, c: Tables, s: Schema)
    requires Walkable(g, m) && Found(g, m, a, b, s) && Found(g, m, b, c, s) && Keeps(a, b) && Keeps(b, c)
    ensures Found(g, m, a, c, s)
  {
    hide Walkable, Reaches, IsNamed;
  }

  /** A struct owned before its fields were walked, under its own name. */
  lemma FoundOwned(g: Graph, m: Measure, a: Tables, b: Tables, name: string, t: TypeId, body: Schema)
    requires Walkable(g, m) && IsNamed(g, t, name) && name !in a.owners && Body(g, m, t) == Some(body)
    requires var mid := a.(owners := a.owners[name := t]); Found(g, m, mid, b, body) && Keeps(mid, b)
    ensures Found(g, m, a, b, Ref(name, AsType(t)))
  {
    var s := Ref(name, AsType(t));
    assert Meets(g, s, t);
    hide Walkable, Reaches, Meets, Body;
    ReachesMet(g, m, s, t);
    forall n | n in b.owners && n !in a.owners
      ensures IsNamed(g, b.owners[n], n) && Reaches(g, m, s, b.owners[n])
    {
      if n != name { ReachesThrough(g, m, s, t, b.owners[n]); }
    }
  }

  /** Whatever a resolved schema leads to is in the tables. */
  lemma ReachedIsClaimed(g: Graph, m: Measure, given: map<string, Schema>, a: Tables, s: Schema, u: TypeId)
    requires Walkable(g, m) && OwnersWalked(g, m, given, a) && Resolved(s, a) && Reaches(g, m, s, u)
    ensures Has(g, u) && Claimed(a, NameOf(g, u), AsType(u))
  {
    hide Walkable, OwnersWalked, Resolved, Path, Meets;
    var p :| |p| > 0 && Path(g, m, p) && Meets(g, s, p[0]) && p[|p| - 1] == u;
    OnPath(g, m, given, a, s, p, |p| - 1);
  }

  lemma {:induction false} OnPath(g: Graph, m: Measure, given: map<string, Schema>, a: Tables, s: Schema, p: seq<TypeId>,
                                  i: nat)
    requires Walkable(g, m) && OwnersWalked(g, m, given, a) && Resolved(s, a)
    requires Path(g, m, p) && Meets(g, s, p[0]) && i < |p|
    ensures Has(g, p[i]) && IsNamed(g, p[i], NameOf(g, p[i])) && Known(NameOf(g, p[i]), AsType(p[i]), a)
    decreases i
  {
    hide Resolved, Body, Mentions;
    if i == 0 {
      MentionedIsKnown(s, a, NameOf(g, p[0]), AsType(p[0]));
    } else {
      OnPath(g, m, given, a, s, p, i - 1);
      var t := p[i - 1];
      assert Meets(g, Body(g, m, t).value, p[i - 1 + 1]);
      assert NameOf(g, t) !in given;
      assert WalkedType(g, m, a, t);
      MentionedIsKnown(Body(g, m, t).value, a, NameOf(g, p[i]), AsType(p[i]));
    }
  }

  // ----- Filling a bag of fields

  function AsObject(bag: Bag): Schema { Object(bag.properties, bag.required) }

  predicate Extends(small: Bag, big: Bag) {
    forall k :: k in small.properties ==> k in big.properties && big.properties[k] == small.properties[k]
  }

  lemma BagMentions(small: Bag, big: Bag)
    requires Extends(small, big)
    ensures forall name, use :: Mentions(AsObject(small), name, use) ==> Mentions(AsObject(big), name, use)
  {
  }

  lemma PutMentions(bag: Bag, f: Field, s: Schema)
    requires JsonName(f) !in bag.properties
    ensures Extends(bag, Put(bag, f, s))
    ensures forall name, use :: Mentions(s, name, use) ==> Mentions(AsObject(Put(bag, f, s)), name, use)
  {
    assert JsonName(f) in Put(bag, f, s).properties;
  }

  lemma FoundField(g: Graph, m: Measure, a: Tables, b: Tables, bag: Bag, f: Field, s: Schema)
    requires Walkable(g, m) && JsonName(f) !in bag.properties && Found(g, m, a, b, s)
    ensures Extends(bag, Put(bag, f, s)) && Found(g, m, a, b, AsObject(Put(bag, f, s)))
  {
    PutMentions(bag, f, s);
    hide Walkable, Put, Mentions, Found;
    FoundIn(g, m, a, b, s, AsObject(Put(bag, f, s)));
  }

  lemma FoundMore(g: Graph, m: Measure, a: Tables, b: Tables, c: Tables, small: Bag, big: Bag)
    requires Walkable(g, m) && Extends(small, big) && Keeps(a, b) && Keeps(b, c)
    requires Found(g, m, a, b, AsObject(small)) && Found(g, m, b, c, AsObject(big))
    ensures Found(g, m, a, c, AsObject(big))
  {
    BagMentions(small, big);
    hide Walkable, Mentions, Found, Keeps, Extends;
    FoundIn(g, m, a, b, AsObject(small), AsObject(big));
    FoundTransitive(g, m, a, b, c, AsObject(big));
  }
}

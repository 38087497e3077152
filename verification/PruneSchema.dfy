/** Response allowlists: the compiler of cyclic JSON schemas into prune trees
    (normalize in tools/catalog-gen/main.go) and the interpreter of the trees
    (pruneValue in apps/ai-service/internal/catalog/httptarget.go). */
module PruneSchema {
  import opened Common

  // ----- Schemas and values

  /** A decoded schema. `ref` is the $ref text, "" when there is none. */
  datatype Raw = Raw(kind: string, ref: string, properties: map<string, Raw>, items: Option<Raw>)

  type Schemas = map<string, Raw>

  /** A normalized schema. A property may be declared without a node. */
  datatype Node = Node(kind: string, properties: map<string, Option<Node>>, items: Option<Node>)

  datatype Json =
    | Null
    | Bool(b: bool)
    | Num(n: real)
    | Str(s: string)
    | Arr(elements: seq<Json>)
    | Obj(members: map<string, Json>)

  const PREFIX := "#/components/schemas/"

  /** strings.TrimPrefix(ref, "#/components/schemas/") */
  function NameOf(ref: string): string {
    if PREFIX <= ref then ref[|PREFIX|..] else ref
  }

  // ----- The compiler

  /** The normalized schema, or None when a reference is missing or already on
      the path. The path grows at each reference and the schema shrinks
      elsewhere, so cyclic sets terminate too. */
  function Normalize(raw: Raw, doc: Schemas, seen: set<string>): Option<Node>
    decreases doc.Keys - seen, raw
  {
    if raw.ref != "" then
      var name := NameOf(raw.ref);
      if name in seen || name !in doc then None
      else
        assert name in doc.Keys - seen;
        Normalize(doc[name], doc, seen + {name})
    else
      Some(Node(raw.kind,
                map k | k in raw.properties :: Normalize(raw.properties[k], doc, seen),
                if raw.items.None? then None else Normalize(raw.items.value, doc, seen)))
  }

  // ----- The interpreter

  function Prune(value: Json, node: Node): Json
    decreases value
  {
    match value
    case Obj(members) =>
      if node.properties == map[] then value
      else Obj(map k | k in members && k in node.properties && node.properties[k].Some?
                 :: Prune(members[k], node.properties[k].value))
    case Arr(elements) =>
      if node.items.None? then value
      else Arr(seq(|elements|, i requires 0 <= i < |elements| => Prune(elements[i], node.items.value)))
    case _ => value
  }

  /** Pruning with what the compiler emitted; a schema that compiled to nothing
      is written as null and prunes nothing. */
  function Apply(value: Json, compiled: Option<Node>): Json {
    match compiled
    case None => value
    case Some(node) => Prune(value, node)
  }

  /** The compiler as the program runs it: one shared set of names on the path,
      extended before a reference is followed and restored afterwards. */
  class Compiler {
    var seen: set<string>

    constructor ()
      ensures seen == {}
    {
      seen := {};
    }

    method Compile(raw: Raw, doc: Schemas) returns (node: Option<Node>)
      modifies this
      ensures node == Normalize(raw, doc, old(seen))
      ensures seen == old(seen)
      decreases doc.Keys - seen, raw, 1
    {
      if raw.ref != "" {
        var name := NameOf(raw.ref);
        if name in seen {
          return None;
        }
        if name !in doc {
          return None;
        }
        assert name in doc.Keys - seen;
        seen := seen + {name};
        node := Compile(doc[name], doc);
        seen := seen - {name};
        assert seen == old(seen);
        return;
      }
      var properties := CompileProperties(raw, doc);
      var items: Option<Node> := None;
      if raw.items.Some? {
        items := Compile(raw.items.value, doc);
      }
      node := Some(Node(raw.kind, properties, items));
      assert Normalize(raw, doc, seen).value.properties == properties;
    }

    method CompileProperties(raw: Raw, doc: Schemas) returns (properties: map<string, Option<Node>>)
      modifies this
      ensures properties == map k | k in raw.properties :: Normalize(raw.properties[k], doc, old(seen))
      ensures seen == old(seen)
      decreases doc.Keys - seen, raw, 0
    {
      properties := map[];
      var names := raw.properties.Keys;
      while names != {}
        invariant seen == old(seen) && names <= raw.properties.Keys
        invariant properties.Keys == raw.properties.Keys - names
        invariant forall k :: k in properties ==> properties[k] == Normalize(raw.properties[k], doc, old(seen))
        decreases names
      {
        var name :| name in names;
        var child := Compile(raw.properties[name], doc);
        properties := properties[name := child];
        names := names - {name};
      }
    }
  }

  // ----- What pruning does, path by path

  datatype Step = Key(name: string) | Index(i: nat)

  function Child(value: Json, step: Step): Option<Json> {
    match (value, step)
    case (Obj(members), Key(k)) => if k in members then Some(members[k]) else None
    case (Arr(elements), Index(i)) => if i < |elements| then Some(elements[i]) else None
    case _ => None
  }

  /** The value found at a path. */
  function Lookup(value: Json, path: seq<Step>): Option<Json>
    decreases |path|
  {
    if path == [] then Some(value)
    else match Child(value, path[0])
      case None => None
      case Some(child) => Lookup(child, path[1..])
  }

  /** What a tree says about a path: it stops at an undeclared key, everything
      below is let through, or it prunes on with a subtree. */
  datatype Verdict = Blocked | Free | Under(node: Node)

  function Follow(node: Node, path: seq<Step>): Verdict
    decreases |path|
  {
    if path == [] then Under(node)
    else match path[0]
      case Key(k) =>
        if node.properties == map[] then Free
        else if k in node.properties && node.properties[k].Some? then Follow(node.properties[k].value, path[1..])
        else Blocked
      case Index(_) =>
        if node.items.None? then Free else Follow(node.items.value, path[1..])
  }

  /** A pruned value holds at every path what the original holds there, pruned
      on, exactly when the tree declares the path. */
  lemma {:induction false} PruneByPath(value: Json, node: Node, path: seq<Step>)
    ensures Lookup(Prune(value, node), path)
         == match Follow(node, path)
            case Blocked => None
            case Free => Lookup(value, path)
            case Under(sub) =>
              (match Lookup(value, path) case None => None case Some(v) => Some(Prune(v, sub)))
    decreases |path|
  {
    if path != [] {
      ChildPruned(value, node, path[0]);
      match path[0]
      case Key(k) =>
        if k in node.properties && node.properties[k].Some? && Child(value, path[0]).Some? {
          PruneByPath(Child(value, path[0]).value, node.properties[k].value, path[1..]);
        }
      case Index(_) =>
        if node.items.Some? && Child(value, path[0]).Some? {
          PruneByPath(Child(value, path[0]).value, node.items.value, path[1..]);
        }
    }
  }

  lemma ChildPruned(value: Json, node: Node, step: Step)
    ensures Child(Prune(value, node), step)
         == match Follow(node, [step])
            case Blocked => None
            case Free => Child(value, step)
            case Under(sub) =>
              (match Child(value, step) case None => None case Some(v) => Some(Prune(v, sub)))
  {
    assert [step][1..] == [];
  }

  /** Pruning twice is pruning once; scalars and array lengths are kept. */
  lemma {:induction false} PruneIdempotent(value: Json, node: Node)
    ensures Prune(Prune(value, node), node) == Prune(value, node)
    ensures !value.Obj? && !value.Arr? ==> Prune(value, node) == value
    ensures value.Arr? ==> Prune(value, node).Arr? && |Prune(value, node).elements| == |value.elements|
    decreases value
  {
    match value
    case Obj(members) =>
      forall k | k in members && k in node.properties && node.properties[k].Some?
        ensures Prune(Prune(members[k], node.properties[k].value), node.properties[k].value)
             == Prune(members[k], node.properties[k].value)
      {
        PruneIdempotent(members[k], node.properties[k].value);
      }
    case Arr(elements) =>
      if node.items.Some? {
        forall i | 0 <= i < |elements|
          ensures Prune(Prune(elements[i], node.items.value), node.items.value) == Prune(elements[i], node.items.value)
        {
          PruneIdempotent(elements[i], node.items.value);
        }
      }
    case _ =>
  }

  // ----- Compiled pruning against references resolved on demand

  /** The schema a chain of references leads to. */
  function Target(raw: Raw, doc: Schemas, seen: set<string>): (t: Option<Raw>)
    ensures t.Some? ==> t.value.ref == ""
    decreases doc.Keys - seen
  {
    if raw.ref == "" then Some(raw)
    else
      var name := NameOf(raw.ref);
      if name in seen || name !in doc then None
      else
        assert name in doc.Keys - seen;
        Target(doc[name], doc, seen + {name})
  }

  /** Pruning that never compiles: every reference is resolved when a value is
      met there. */
  function PruneOnDemand(value: Json, raw: Raw, doc: Schemas): Json
    requires raw.ref == ""
    decreases value
  {
    match value
    case Obj(members) =>
      if raw.properties == map[] then value
      else Obj(map k | k in members && k in raw.properties && Target(raw.properties[k], doc, {}).Some?
                 :: PruneOnDemand(members[k], Target(raw.properties[k], doc, {}).value, doc))
    case Arr(elements) =>
      if raw.items.None? || Target(raw.items.value, doc, {}).None? then value
      else Arr(seq(|elements|, i requires 0 <= i < |elements| =>
                 PruneOnDemand(elements[i], Target(raw.items.value, doc, {}).value, doc)))
    case _ => value
  }

  /** The value pruned on demand; a schema that leads nowhere prunes nothing. */
  function OnDemand(value: Json, raw: Raw, doc: Schemas): Json {
    match Target(raw, doc, {})
    case None => value
    case Some(t) => PruneOnDemand(value, t, doc)
  }

  /** The schema n levels down the items of a schema. */
  function ItemsAt(t: Raw, doc: Schemas, n: nat): (u: Option<Raw>)
    requires t.ref == ""
    ensures u.Some? ==> u.value.ref == ""
    decreases n
  {
    if n == 0 then Some(t)
    else if t.items.None? then None
    else match Target(t.items.value, doc, {})
      case None => None
      case Some(u) => ItemsAt(u, doc, n - 1)
  }

  /** The schema prunes nothing: none along its items declares a property. */
  ghost predicate Transparent(t: Raw, doc: Schemas)
    requires t.ref == ""
  {
    forall n: nat :: ItemsAt(t, doc, n).Some? ==> ItemsAt(t, doc, n).value.properties == map[]
  }

  /** What following references on the path leaves out does no harm: no property
      with a target is cut, and no items are cut whose target prunes anything. */
  ghost predicate Faithful(raw: Raw, doc: Schemas, seen: set<string>)
    requires Target(raw, doc, seen).Some?
    decreases doc.Keys - seen, raw
  {
    if raw.ref != "" then
      var name := NameOf(raw.ref);
      assert name in doc.Keys - seen;
      Faithful(doc[name], doc, seen + {name})
    else
      && (forall k :: k in raw.properties && Target(raw.properties[k], doc, {}).Some? ==>
            Target(raw.properties[k], doc, seen).Some? && Faithful(raw.properties[k], doc, seen))
      && (raw.items.Some? && Target(raw.items.value, doc, {}).Some? ==>
            if Target(raw.items.value, doc, seen).Some? then Faithful(raw.items.value, doc, seen)
            else Transparent(Target(raw.items.value, doc, {}).value, doc))
  }

  /** The name a reference gives: what follows the prefix, or all of it without. */
  lemma NamesExactly(name: string, other: string)
    requires !("#/components/schemas/" <= other)
    ensures NameOf("#/components/schemas/" + name) == name && NameOf(other) == other
  {}

  /** Schemas of which each is the one its predecessor refers to; no name is
      followed twice or was on the path before, and the last refers to none. */
  predicate IsChain(chain: seq<Raw>, doc: Schemas, seen: set<string>)
    decreases |chain|
  {
    && chain != []
    && if chain[0].ref == "" then |chain| == 1
       else
         && |chain| > 1 && NameOf(chain[0].ref) !in seen
         && NameOf(chain[0].ref) in doc && chain[1] == doc[NameOf(chain[0].ref)]
         && IsChain(chain[1..], doc, seen + {NameOf(chain[0].ref)})
  }

  lemma {:induction false} ChainTarget(chain: seq<Raw>, doc: Schemas, seen: set<string>)
    requires IsChain(chain, doc, seen)
    ensures Target(chain[0], doc, seen) == Some(chain[|chain| - 1])
    decreases |chain|
  {
    if chain[0].ref != "" {
      ChainTarget(chain[1..], doc, seen + {NameOf(chain[0].ref)});
    }
  }

  lemma {:induction false} TargetChain(raw: Raw, doc: Schemas, seen: set<string>) returns (chain: seq<Raw>)
    requires Target(raw, doc, seen).Some?
    ensures IsChain(chain, doc, seen) && chain[0] == raw
    decreases doc.Keys - seen
  {
    if raw.ref == "" {
      chain := [raw];
    } else {
      var name := NameOf(raw.ref);
      assert name in doc.Keys - seen;
      var rest := TargetChain(doc[name], doc, seen + {name});
      chain := [raw] + rest;
      assert chain[1..] == rest;
    }
  }

  /** A schema leads to the end of its chain of references, and to nothing when it
      has none: a name is missing or comes round again. */
  lemma TargetExactly(raw: Raw, doc: Schemas, seen: set<string>, t: Raw)
    ensures Target(raw, doc, seen) == Some(t)
       <==> exists chain :: IsChain(chain, doc, seen) && chain[0] == raw && chain[|chain| - 1] == t
  {
    hide Target, IsChain;
    if Target(raw, doc, seen).Some? {
      var chain := TargetChain(raw, doc, seen);
      ChainNotEmpty(chain, doc, seen);
      ChainTarget(chain, doc, seen);
    }
    forall chain | IsChain(chain, doc, seen) && chain != [] && chain[0] == raw
      ensures Target(raw, doc, seen) == Some(chain[|chain| - 1])
    {
      ChainTarget(chain, doc, seen);
    }
    forall chain | IsChain(chain, doc, seen) ensures chain != [] { ChainNotEmpty(chain, doc, seen); }
  }

  lemma ChainNotEmpty(chain: seq<Raw>, doc: Schemas, seen: set<string>)
    requires IsChain(chain, doc, seen)
    ensures chain != []
  {}

  /** A longer path leads to the same schema or to none. */
  lemma {:induction false} TargetMore(raw: Raw, doc: Schemas, seen: set<string>, fewer: set<string>)
    requires fewer <= seen && Target(raw, doc, seen).Some?
    ensures Target(raw, doc, fewer) == Target(raw, doc, seen)
    decreases doc.Keys - seen
  {
    if raw.ref != "" {
      var name := NameOf(raw.ref);
      assert name in doc.Keys - seen;
      TargetMore(doc[name], doc, seen + {name}, fewer + {name});
    }
  }

  /** The compiled tree exists exactly when the references lead somewhere. */
  lemma {:induction false} NormalizeTarget(raw: Raw, doc: Schemas, seen: set<string>)
    ensures Normalize(raw, doc, seen).Some? <==> Target(raw, doc, seen).Some?
    decreases doc.Keys - seen
  {
    if raw.ref != "" && NameOf(raw.ref) in doc && NameOf(raw.ref) !in seen {
      assert NameOf(raw.ref) in doc.Keys - seen;
      NormalizeTarget(doc[NameOf(raw.ref)], doc, seen + {NameOf(raw.ref)});
    }
  }

  lemma SameShape(raw: Raw, doc: Schemas, seen: set<string>)
    requires raw.ref == ""
    ensures Normalize(raw, doc, seen).Some?
    ensures Normalize(raw, doc, seen).value.properties == map k | k in raw.properties :: Normalize(raw.properties[k], doc, seen)
    ensures Normalize(raw, doc, seen).value.properties == map[] <==> raw.properties == map[]
    ensures Normalize(raw, doc, seen).value.items
         == if raw.items.None? then None else Normalize(raw.items.value, doc, seen)
  {
    var node := Normalize(raw, doc, seen).value;
    assert node.properties.Keys == raw.properties.Keys;
  }

  lemma UnfoldPrune(members: map<string, Json>, node: Node)
    requires node.properties != map[]
    ensures var pruned := Prune(Obj(members), node);
      && pruned.Obj?
      && (forall k :: k in pruned.members <==> k in members && k in node.properties && node.properties[k].Some?)
      && (forall k :: k in pruned.members ==> pruned.members[k] == Prune(members[k], node.properties[k].value))
  {
  }

  lemma UnfoldOnDemand(members: map<string, Json>, raw: Raw, doc: Schemas)
    requires raw.ref == "" && raw.properties != map[]
    ensures var pruned := PruneOnDemand(Obj(members), raw, doc);
      && pruned.Obj?
      && (forall k :: k in pruned.members
            <==> k in members && k in raw.properties && Target(raw.properties[k], doc, {}).Some?)
      && (forall k :: k in pruned.members
            ==> pruned.members[k] == PruneOnDemand(members[k], Target(raw.properties[k], doc, {}).value, doc))
  {
    hide Target;
  }

  // ----- Schemas that prune nothing

  lemma ItemsBelow(t: Raw, doc: Schemas, n: nat)
    requires t.ref == "" && t.items.Some? && Target(t.items.value, doc, {}).Some?
    ensures ItemsAt(t, doc, n + 1) == ItemsAt(Target(t.items.value, doc, {}).value, doc, n)
  {
  }

  lemma {:induction false} TransparentKeeps(value: Json, t: Raw, doc: Schemas)
    requires t.ref == "" && Transparent(t, doc)
    ensures PruneOnDemand(value, t, doc) == value
    decreases value
  {
    assert ItemsAt(t, doc, 0) == Some(t);
    if value.Arr? && t.items.Some? && Target(t.items.value, doc, {}).Some? {
      var u := Target(t.items.value, doc, {}).value;
      forall n: nat ensures ItemsAt(u, doc, n).Some? ==> ItemsAt(u, doc, n).value.properties == map[] {
        ItemsBelow(t, doc, n);
      }
      hide Target, ItemsAt;
      forall i | 0 <= i < |value.elements| ensures PruneOnDemand(value.elements[i], u, doc) == value.elements[i] {
        TransparentKeeps(value.elements[i], u, doc);
      }
    }
  }

  lemma {:induction false} NewKey(keys: set<string>) returns (k: string)
    ensures forall key :: key in keys ==> |key| < |k|
    decreases |keys|
  {
    if keys == {} {
      k := "";
    } else {
      var key :| key in keys;
      var rest := NewKey(keys - {key});
      k := if |key| < |rest| then rest else key + "x";
      forall other | other in keys ensures |other| < |k| {
        if other != key { assert other in keys - {key}; }
      }
    }
  }

  /** A schema that declares properties n levels down its items drops something. */
  lemma {:induction false} SomethingDropped(t: Raw, doc: Schemas, n: nat) returns (value: Json)
    requires t.ref == "" && ItemsAt(t, doc, n).Some? && ItemsAt(t, doc, n).value.properties != map[]
    ensures PruneOnDemand(value, t, doc) != value
    decreases n
  {
    if n == 0 {
      var k := NewKey(t.properties.Keys);
      value := Obj(map[k := Null]);
      UnfoldOnDemand(value.members, t, doc);
      assert k in value.members;
      assert k !in t.properties;
    } else {
      var u := Target(t.items.value, doc, {}).value;
      var inner := SomethingDropped(u, doc, n - 1);
      value := Arr([inner]);
      assert PruneOnDemand(value, t, doc).elements[0] == PruneOnDemand(inner, u, doc);
      assert value.elements[0] == inner;
    }
  }

  // ----- Exactly when compiling first is resolving on demand

  lemma UnfoldElements(elements: seq<Json>, node: Node, raw: Raw, doc: Schemas)
    requires raw.ref == ""
    ensures Prune(Arr(elements), node)
         == if node.items.None? then Arr(elements)
            else Arr(seq(|elements|, i requires 0 <= i < |elements| => Prune(elements[i], node.items.value)))
    ensures PruneOnDemand(Arr(elements), raw, doc)
         == if raw.items.None? || Target(raw.items.value, doc, {}).None? then Arr(elements)
            else Arr(seq(|elements|, i requires 0 <= i < |elements| =>
                           PruneOnDemand(elements[i], Target(raw.items.value, doc, {}).value, doc)))
  {
    hide Target;
  }

  /** A faithful schema compiles to a tree that prunes every value as references
      resolved on demand do. */
  lemma {:induction false} FaithfulAgrees(value: Json, raw: Raw, doc: Schemas, seen: set<string>)
    requires Target(raw, doc, seen).Some? && Faithful(raw, doc, seen)
    ensures Normalize(raw, doc, seen).Some?
    ensures Prune(value, Normalize(raw, doc, seen).value) == PruneOnDemand(value, Target(raw, doc, seen).value, doc)
    decreases doc.Keys - seen, value, raw, 1
  {
    NormalizeTarget(raw, doc, seen);
    if raw.ref != "" {
      var name := NameOf(raw.ref);
      assert name in doc.Keys - seen;
      FaithfulAgrees(value, doc[name], doc, seen + {name});
    } else {
      match value
      case Obj(members) => SameMembers(members, raw, doc, seen);
      case Arr(elements) => SameElements(elements, raw, doc, seen);
      case _ =>
    }
  }

  lemma {:induction false} SameMembers(members: map<string, Json>, raw: Raw, doc: Schemas, seen: set<string>)
    requires raw.ref == "" && Faithful(raw, doc, seen)
    ensures Prune(Obj(members), Normalize(raw, doc, seen).value) == PruneOnDemand(Obj(members), raw, doc)
    decreases doc.Keys - seen, Obj(members), raw, 0
  {
    SameShape(raw, doc, seen);
    var node := Normalize(raw, doc, seen).value;
    if raw.properties != map[] {
      UnfoldPrune(members, node);
      UnfoldOnDemand(members, raw, doc);
      hide Normalize, Target, Prune, PruneOnDemand, Faithful;
      forall k | k in members && k in raw.properties
        ensures node.properties[k].Some? <==> Target(raw.properties[k], doc, {}).Some?
        ensures node.properties[k].Some? ==>
          Prune(members[k], node.properties[k].value)
          == PruneOnDemand(members[k], Target(raw.properties[k], doc, {}).value, doc)
      {
        SameProperty(members[k], raw, k, doc, seen);
      }
      assert Prune(Obj(members), node).members == PruneOnDemand(Obj(members), raw, doc).members;
    }
  }

  lemma {:induction false} SameProperty(value: Json, raw: Raw, k: string, doc: Schemas, seen: set<string>)
    requires raw.ref == "" && Faithful(raw, doc, seen) && k in raw.properties
    ensures var child := raw.properties[k];
      && (Normalize(child, doc, seen).Some? <==> Target(child, doc, {}).Some?)
      && (Target(child, doc, {}).Some? ==>
            Prune(value, Normalize(child, doc, seen).value) == PruneOnDemand(value, Target(child, doc, {}).value, doc))
    decreases doc.Keys - seen, value, raw.properties[k], 2
  {
    hide Normalize, Target, Prune, PruneOnDemand, Transparent;
    var child := raw.properties[k];
    NormalizeTarget(child, doc, seen);
    if Target(child, doc, seen).Some? {
      TargetMore(child, doc, seen, {});
      FaithfulAgrees(value, child, doc, seen);
    }
  }

  lemma {:induction false} SameElements(elements: seq<Json>, raw: Raw, doc: Schemas, seen: set<string>)
    requires raw.ref == "" && Faithful(raw, doc, seen)
    ensures Prune(Arr(elements), Normalize(raw, doc, seen).value) == PruneOnDemand(Arr(elements), raw, doc)
    decreases doc.Keys - seen, Arr(elements), raw, 0
  {
    SameShape(raw, doc, seen);
    var node := Normalize(raw, doc, seen).value;
    UnfoldElements(elements, node, raw, doc);
    if raw.items.Some? && Target(raw.items.value, doc, {}).Some? {
      var child := raw.items.value;
      var u := Target(child, doc, {}).value;
      NormalizeTarget(child, doc, seen);
      hide Normalize, Target, Prune, PruneOnDemand, Transparent;
      forall i | 0 <= i < |elements|
        ensures (if node.items.Some? then Prune(elements[i], node.items.value) else elements[i])
             == PruneOnDemand(elements[i], u, doc)
      {
        if Target(child, doc, seen).Some? {
          TargetMore(child, doc, seen, {});
          FaithfulAgrees(elements[i], child, doc, seen);
        } else {
          TransparentKeeps(elements[i], u, doc);
        }
      }
    } else if raw.items.Some? {
      if Target(raw.items.value, doc, seen).Some? { TargetMore(raw.items.value, doc, seen, {}); }
      NormalizeTarget(raw.items.value, doc, seen);
    }
  }

  /** Any other schema prunes some value differently. */
  lemma {:induction false} Differs(raw: Raw, doc: Schemas, seen: set<string>) returns (value: Json)
    requires Target(raw, doc, seen).Some? && !Faithful(raw, doc, seen)
    ensures Normalize(raw, doc, seen).Some?
    ensures Prune(value, Normalize(raw, doc, seen).value) != PruneOnDemand(value, Target(raw, doc, seen).value, doc)
    decreases doc.Keys - seen, raw
  {
    NormalizeTarget(raw, doc, seen);
    if raw.ref != "" {
      var name := NameOf(raw.ref);
      assert name in doc.Keys - seen;
      value := Differs(doc[name], doc, seen + {name});
    } else {
      SameShape(raw, doc, seen);
      var node := Normalize(raw, doc, seen).value;
      if k :| k in raw.properties && Target(raw.properties[k], doc, {}).Some?
              && !(Target(raw.properties[k], doc, seen).Some? && Faithful(raw.properties[k], doc, seen))
      {
        var child := raw.properties[k];
        var inner := Null;
        NormalizeTarget(child, doc, seen);
        if Target(child, doc, seen).Some? {
          TargetMore(child, doc, seen, {});
          inner := Differs(child, doc, seen);
        }
        value := Obj(map[k := inner]);
        hide Faithful, Normalize, Target, Prune, PruneOnDemand;
        UnfoldPrune(value.members, node);
        UnfoldOnDemand(value.members, raw, doc);
        assert k in value.members && value.members[k] == inner;
      } else {
        var child := raw.items.value;
        var u := Target(child, doc, {}).value;
        var inner;
        NormalizeTarget(child, doc, seen);
        if Target(child, doc, seen).Some? {
          TargetMore(child, doc, seen, {});
          inner := Differs(child, doc, seen);
        } else {
          var n: nat :| ItemsAt(u, doc, n).Some? && ItemsAt(u, doc, n).value.properties != map[];
          inner := SomethingDropped(u, doc, n);
        }
        value := Arr([inner]);
        hide Faithful, Normalize, Target, Prune, PruneOnDemand, ItemsAt;
        UnfoldElements([inner], node, raw, doc);
        assert PruneOnDemand(value, raw, doc).elements[0] == PruneOnDemand(inner, u, doc);
        assert Prune(value, node).elements[0] == if node.items.None? then inner else Prune(inner, node.items.value);
      }
    }
  }

  /** Compiling first prunes every value as resolving on demand exactly when the
      schema leads nowhere or is faithful. */
  lemma AgreeExactly(raw: Raw, doc: Schemas)
    ensures (forall value :: Apply(value, Normalize(raw, doc, {})) == OnDemand(value, raw, doc))
       <==> Target(raw, doc, {}).None? || Faithful(raw, doc, {})
  {
    NormalizeTarget(raw, doc, {});
    hide Normalize, Target, Faithful, Prune, PruneOnDemand;
    if Target(raw, doc, {}).Some? {
      if Faithful(raw, doc, {}) {
        forall value ensures Apply(value, Normalize(raw, doc, {})) == OnDemand(value, raw, doc) {
          FaithfulAgrees(value, raw, doc, {});
        }
      } else {
        var value := Differs(raw, doc, {});
        assert Apply(value, Normalize(raw, doc, {})) != OnDemand(value, raw, doc);
      }
    }
  }

  // ----- Acyclic and cyclic schema sets

  /** Every reference inside the schema leads below `bound` in a ranking. */
  predicate Below(raw: Raw, doc: Schemas, rank: string -> nat, bound: nat)
    decreases raw
  {
    if raw.ref != "" then NameOf(raw.ref) in doc ==> rank(NameOf(raw.ref)) < bound
    else
      && (forall k :: k in raw.properties ==> Below(raw.properties[k], doc, rank, bound))
      && (raw.items.Some? ==> Below(raw.items.value, doc, rank, bound))
  }

  predicate Acyclic(doc: Schemas, rank: string -> nat) {
    forall name :: name in doc ==> Below(doc[name], doc, rank, rank(name))
  }

  lemma {:induction false} TargetBelow(raw: Raw, doc: Schemas, rank: string -> nat, bound: nat, seen: set<string>,
                                       fewer: set<string>)
    requires Acyclic(doc, rank) && Below(raw, doc, rank, bound) && fewer <= seen
    requires forall name :: name in seen ==> bound <= rank(name)
    ensures Target(raw, doc, seen) == Target(raw, doc, fewer)
    decreases doc.Keys - seen
  {
    if raw.ref != "" && NameOf(raw.ref) in doc {
      var name := NameOf(raw.ref);
      assert name in doc.Keys - seen;
      TargetBelow(doc[name], doc, rank, rank(name), seen + {name}, fewer + {name});
    }
  }

  /** In an acyclic set no reference is ever cut. */
  lemma {:induction false} AcyclicFaithful(raw: Raw, doc: Schemas, rank: string -> nat, bound: nat, seen: set<string>)
    requires Acyclic(doc, rank) && Below(raw, doc, rank, bound) && Target(raw, doc, seen).Some?
    requires forall name :: name in seen ==> bound <= rank(name)
    ensures Faithful(raw, doc, seen)
    decreases doc.Keys - seen, raw
  {
    if raw.ref != "" {
      var name := NameOf(raw.ref);
      assert name in doc.Keys - seen;
      AcyclicFaithful(doc[name], doc, rank, rank(name), seen + {name});
    } else {
      forall k | k in raw.properties && Target(raw.properties[k], doc, {}).Some?
        ensures Target(raw.properties[k], doc, seen).Some? && Faithful(raw.properties[k], doc, seen)
      {
        TargetBelow(raw.properties[k], doc, rank, bound, seen, {});
        AcyclicFaithful(raw.properties[k], doc, rank, bound, seen);
      }
      if raw.items.Some? && Target(raw.items.value, doc, {}).Some? {
        TargetBelow(raw.items.value, doc, rank, bound, seen, {});
        AcyclicFaithful(raw.items.value, doc, rank, bound, seen);
      }
    }
  }

  /** For an acyclic set, compiling first and resolving on demand prune alike. */
  lemma AcyclicAgree(value: Json, raw: Raw, doc: Schemas, rank: string -> nat, bound: nat)
    requires Acyclic(doc, rank) && Below(raw, doc, rank, bound)
    ensures Apply(value, Normalize(raw, doc, {})) == OnDemand(value, raw, doc)
  {
    if Target(raw, doc, {}).Some? { AcyclicFaithful(raw, doc, rank, bound, {}); }
    AgreeExactly(raw, doc);
    hide Normalize, Target, Faithful, Prune, PruneOnDemand;
  }

  const LEAF := Raw("string", "", map[], None)
  const TREE_REF := Raw("", PREFIX + "Tree", map[], None)
  const TREE := Raw("object", "", map["name" := LEAF, "children" := Raw("array", "", map[], Some(TREE_REF))], None)

  lemma Cut(raw: Raw, doc: Schemas, seen: set<string>)
    requires raw.ref != "" && NameOf(raw.ref) in seen
    ensures Normalize(raw, doc, seen) == None && Target(raw, doc, seen) == None
  {
  }

  /** A cycle through array items: the compiled tree lets the nested elements
      through whole, undeclared keys included. */
  lemma ItemsCyclePartsThem(secret: Json)
    ensures var doc := map["Tree" := TREE];
      var nested := Obj(map["children" := Arr([Obj(map["secret" := secret])])]);
      && Normalize(TREE_REF, doc, {}).Some?
      && Prune(nested, Normalize(TREE_REF, doc, {}).value) == nested
      && OnDemand(nested, TREE_REF, doc) == Obj(map["children" := Arr([Obj(map[])])])
  {
    var doc := map["Tree" := TREE];
    assert NameOf(PREFIX + "Tree") == "Tree";
    var list := TREE.properties["children"];
    Cut(TREE_REF, doc, {"Tree"});
    SameShape(list, doc, {"Tree"});
    assert Normalize(list, doc, {"Tree"}) == Some(Node("array", map[], None));
    assert {} + {"Tree"} == {"Tree"};
    var node := Normalize(TREE, doc, {"Tree"}).value;
    assert Normalize(TREE_REF, doc, {}) == Some(node);
    assert "children" in node.properties && node.properties["children"] == Some(Node("array", map[], None));
    var inner := Obj(map["secret" := secret]);
    var nested := Obj(map["children" := Arr([inner])]);
    assert Prune(Arr([inner]), Node("array", map[], None)) == Arr([inner]);
    assert Prune(nested, node).members == map["children" := Arr([inner])];
    assert Target(TREE_REF, doc, {}) == Some(TREE);
    assert "secret" !in TREE.properties;
    assert PruneOnDemand(inner, TREE, doc).members == map[];
    assert PruneOnDemand(Arr([inner]), list, doc).elements == [Obj(map[])];
    assert Target(list, doc, {}) == Some(list);
    assert PruneOnDemand(nested, TREE, doc).members == map["children" := Arr([Obj(map[])])];
  }

  const LIST_REF := Raw("", PREFIX + "List", map[], None)
  const LIST := Raw("object", "", map["next" := LIST_REF], None)

  /** A cycle through a property: the compiled tree drops the declared key. */
  lemma PropertyCyclePartsThem()
    ensures var doc := map["List" := LIST];
      var two := Obj(map["next" := Obj(map[])]);
      && Normalize(LIST_REF, doc, {}).Some?
      && Prune(two, Normalize(LIST_REF, doc, {}).value) == Obj(map[])
      && OnDemand(two, LIST_REF, doc) == two
  {
    var doc := map["List" := LIST];
    assert NameOf(PREFIX + "List") == "List";
    Cut(LIST_REF, doc, {"List"});
    assert {} + {"List"} == {"List"};
    var node := Normalize(LIST, doc, {"List"}).value;
    assert Normalize(LIST_REF, doc, {}) == Some(node);
    assert "next" in node.properties && node.properties["next"] == None;
    var two := Obj(map["next" := Obj(map[])]);
    assert Prune(two, node).members == map[];
    assert Target(LIST_REF, doc, {}) == Some(LIST);
    assert PruneOnDemand(Obj(map[]), LIST, doc).members == map[];
    assert PruneOnDemand(two, LIST, doc).members == two.members;
  }

  const NEST_REF := Raw("", PREFIX + "Nest", map[], None)
  const NEST := Raw("array", "", map[], Some(NEST_REF))

  /** A cycle that does no harm: arrays of themselves declare no property. */
  lemma HarmlessCycle(value: Json)
    ensures var doc := map["Nest" := NEST];
      && (forall rank: string -> nat :: !Acyclic(doc, rank))
      && Apply(value, Normalize(NEST_REF, doc, {})) == OnDemand(value, NEST_REF, doc)
  {
    var doc := map["Nest" := NEST];
    assert NameOf(PREFIX + "Nest") == "Nest";
    assert {} + {"Nest"} == {"Nest"};
    Cut(NEST_REF, doc, {"Nest"});
    assert Target(NEST_REF, doc, {}) == Some(NEST);
    forall rank: string -> nat ensures !Acyclic(doc, rank) {
      assert "Nest" in doc;
      assert !Below(NEST, doc, rank, rank("Nest"));
    }
    AlwaysNest();
    assert Faithful(NEST, doc, {"Nest"});
    assert Faithful(NEST_REF, doc, {});
    AgreeExactly(NEST_REF, doc);
  }

  lemma {:induction false} NestAt(n: nat)
    ensures ItemsAt(NEST, map["Nest" := NEST], n) == Some(NEST)
    decreases n
  {
    assert NameOf(PREFIX + "Nest") == "Nest";
    assert Target(NEST_REF, map["Nest" := NEST], {}) == Some(NEST);
    if n > 0 { NestAt(n - 1); }
  }

  lemma AlwaysNest()
    ensures Transparent(NEST, map["Nest" := NEST])
  {
    forall n: nat ensures ItemsAt(NEST, map["Nest" := NEST], n) == Some(NEST) { NestAt(n); }
    hide ItemsAt;
  }
}

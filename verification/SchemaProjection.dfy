/** Projection of generated schemas (backend/src/rpc/schema.rs): `nullable` becomes an explicit null,
    and `allOf` is flattened through references to components, which may be cyclic. Parts that have
    been projected are projected again when they are resolved, so it is not obvious that this ends;
    `fuel` bounds the depth of calls, and running out of it is an outcome of its own. */
module SchemaProjection {
  import opened Json

  /** The object keys that mean something to the projection, and all the others. A property called
      "nullable" is the key `Nullable` too: the source does not tell them apart. */
  datatype Key =
    | Nullable | Discriminator | AllOf | AnyOf | Type | Properties | Required | Title | Description | RefKey
    | Other(name: string)

  datatype Schema =
    | Bool(b: bool)
    | Text(text: string)
    | Literal(value: Value)
    | Array(items: seq<Schema>)
    | Object(fields: map<Key, Schema>)

  type Components = map<string, Schema>

  datatype Outcome<+T> = Done(value: T) | Failed | OutOfFuel

  const REF_PREFIX := "#/components/schemas/"
  const NULL_NAME := "null"
  const NULL_TYPE := Object(map[Type := Text(NULL_NAME)])

  function Entry(s: Schema, k: Key): Option<Schema>
  {
    if s.Object? && k in s.fields then Some(s.fields[k]) else None
  }

  function StripPrefix(text: string): Option<string>
  {
    if REF_PREFIX <= text then Some(text[|REF_PREFIX|..]) else None
  }

  function Reference(s: Schema): Option<string>
  {
    match Entry(s, RefKey)
    case Some(Text(text)) => StripPrefix(text)
    case _ => None
  }

  // ---------------------------------------------------------------- nulls

  function Alternative(s: Schema): Schema { Object(map[AnyOf := Array([s, NULL_TYPE])]) }

  /** A nullable schema whose type is neither a name nor a list of names hides in an alternative. */
  predicate Hides(kind: Option<Schema>) { kind.None? || (kind.value.Text? && kind.value.text == NULL_NAME) || !(kind.value.Text? || kind.value.Array?) }

  function AddNull(s: Schema): Schema
  {
    if !s.Object? || Hides(Entry(s, Type)) then Alternative(s)
    else if s.fields[Type].Text? then Object(s.fields[Type := Array([s.fields[Type], Text(NULL_NAME)])])
    else
      var kinds := s.fields[Type].items;
      Object(s.fields[Type := Array(if Text(NULL_NAME) in kinds then kinds else kinds + [Text(NULL_NAME)])])
  }

  predicate IsNullable(s: Schema) { Entry(s, Nullable) == Some(Bool(true)) }

  // ---------------------------------------------------------------- merging

  function Props(s: Schema): map<Key, Schema>
  {
    match Entry(s, Properties)
    case Some(Object(properties)) => properties
    case _ => map[]
  }

  function RequiredList(s: Schema): seq<Schema>
  {
    match Entry(s, Required)
    case Some(Array(names)) => names
    case _ => []
  }

  predicate IsObjectSchema(s: Schema)
  {
    s.Object? && (Properties in s.fields || Entry(s, Type) == Some(Text("object")))
  }

  /** The properties of `source` go into `target`: equal ones may meet, different ones conflict, and
      a target whose properties are not an object makes the program panic. */
  function MergeProperties(target: map<Key, Schema>, source: Schema): Outcome<map<Key, Schema>>
  {
    if !(Entry(source, Properties).Some? && source.fields[Properties].Object?) then Done(target)
    else if Properties in target && !target[Properties].Object? then Failed
    else
      var have := Props(Object(target));
      var add := Props(source);
      if exists k :: k in add && k in have && have[k] != add[k] then Failed
      else Done(target[Properties := Object(have + add)])
  }

  function AppendMissing(have: seq<Schema>, add: seq<Schema>): seq<Schema>
    decreases |add|
  {
    if add == [] then have
    else AppendMissing(if add[0] in have then have else have + [add[0]], add[1..])
  }

  function MergeRequired(target: map<Key, Schema>, source: Schema): map<Key, Schema>
  {
    var required := AppendMissing(RequiredList(Object(target)), RequiredList(source));
    if required == [] then target - {Required} else target[Required := Array(required)]
  }

  predicate OwnKey(k: Key) { k == Properties || k == Required || k == Title || k == Description }

  function MergeOthers(target: map<Key, Schema>, source: map<Key, Schema>): map<Key, Schema>
  {
    (map k | k in source && !OwnKey(k) :: source[k]) + target
  }

  function Merge(target: map<Key, Schema>, source: Schema): Outcome<map<Key, Schema>>
  {
    if !source.Object? then Done(target)
    else
      match MergeProperties(target, source)
      case Done(t) => Done(MergeOthers(MergeRequired(t, source), source.fields))
      case _ => Failed
  }

  function MergeAll(target: map<Key, Schema>, parts: seq<Schema>): Outcome<map<Key, Schema>>
    decreases |parts|
  {
    if parts == [] then Done(target)
    else
      match Merge(target, parts[0])
      case Done(t) => MergeAll(t, parts[1..])
      case _ => Failed
  }

  /** The loops of the source: properties first, then required names, then the other keys. */
  method MergeObjectSchema(target: map<Key, Schema>, source: Schema) returns (r: Outcome<map<Key, Schema>>)
    ensures r == Merge(target, source)
  {
    if !source.Object? { return Done(target); }
    var merged := target;
    if Properties in source.fields && source.fields[Properties].Object? {
      if Properties in merged && !merged[Properties].Object? { return Failed; }
      var have := if Properties in merged then merged[Properties].fields else map[];
      var properties := AddProperties(have, source.fields[Properties].fields);
      if properties.None? { return Failed; }
      merged := merged[Properties := Object(properties.value)];
    }
    assert MergeProperties(target, source) == Done(merged);
    hide MergeProperties;
    merged := AddRequired(merged, source);
    merged := AddOtherKeys(merged, source.fields);
    r := Done(merged);
  }

  /** Properties of the same name must be equal. */
  method AddProperties(have: map<Key, Schema>, add: map<Key, Schema>) returns (r: Option<map<Key, Schema>>)
    ensures r.None? <==> exists k :: k in add && k in have && have[k] != add[k]
    ensures r.Some? ==> r.value == have + add
  {
    var properties := have;
    var left := add.Keys;
    while left != {}
      invariant left <= add.Keys
      invariant properties.Keys == have.Keys + (add.Keys - left)
      invariant forall k :: k in have ==> properties[k] == have[k]
      invariant forall k :: k in add.Keys - left ==> properties[k] == add[k]
      decreases |left|
    {
      var name :| name in left;
      if name in properties {
        if properties[name] != add[name] { return None; }
      } else {
        properties := properties[name := add[name]];
      }
      left := left - {name};
    }
    assert properties == have + add;
    r := Some(properties);
  }

  method AddRequired(target: map<Key, Schema>, source: Schema) returns (merged: map<Key, Schema>)
    ensures merged == MergeRequired(target, source)
  {
    var required := [];
    if Required in target && target[Required].Array? { required := target[Required].items; }
    merged := target - {Required};
    if Entry(source, Required).Some? && source.fields[Required].Array? {
      required := AppendMissingNames(required, source.fields[Required].items);
    }
    if required != [] { merged := merged[Required := Array(required)]; }
  }

  method AppendMissingNames(have: seq<Schema>, add: seq<Schema>) returns (required: seq<Schema>)
    ensures required == AppendMissing(have, add)
  {
    required := have;
    for i := 0 to |add|
      invariant AppendMissing(required, add[i..]) == AppendMissing(have, add)
    {
      assert add[i..][1..] == add[i + 1..];
      if add[i] !in required { required := required + [add[i]]; }
    }
  }

  /** A key that the target has keeps its value. */
  method AddOtherKeys(target: map<Key, Schema>, source: map<Key, Schema>) returns (merged: map<Key, Schema>)
    ensures merged == MergeOthers(target, source)
  {
    hide MergeOthers, OwnKey;
    merged := target;
    var left := source.Keys;
    NoKeyMerged(target, source);
    while left != {}
      invariant left <= source.Keys && merged == MergeOthers(target, source - left)
      decreases |left|
    {
      var key :| key in left;
      OneKeyMerged(target, source, left, key);
      if !OwnKey(key) && key !in merged { merged := merged[key := source[key]]; }
      left := left - {key};
    }
    assert source - left == source;
  }

  lemma NoKeyMerged(target: map<Key, Schema>, source: map<Key, Schema>)
    ensures MergeOthers(target, source - source.Keys) == target
  {
    assert MergeOthers(target, source - source.Keys) == target;
  }

  /** Taking one more key adds it, unless it is merged otherwise or was there. */
  lemma OneKeyMerged(target: map<Key, Schema>, source: map<Key, Schema>, left: set<Key>, key: Key)
    requires left <= source.Keys && key in left
    ensures MergeOthers(target, source - (left - {key})) ==
            var merged := MergeOthers(target, source - left);
            if !OwnKey(key) && key !in merged then merged[key := source[key]] else merged
  {
    hide OwnKey;
    var merged := MergeOthers(target, source - left);
    var next := if !OwnKey(key) && key !in merged then merged[key := source[key]] else merged;
    assert MergeOthers(target, source - (left - {key})) == next;
  }

  /** The parts are merged one after the other; the first failure ends it. */
  method MergeParts(target: map<Key, Schema>, parts: seq<Schema>) returns (r: Outcome<map<Key, Schema>>)
    ensures r == MergeAll(target, parts)
  {
    var merged := target;
    for i := 0 to |parts|
      invariant MergeAll(merged, parts[i..]) == MergeAll(target, parts)
    {
      assert parts[i..][0] == parts[i] && parts[i..][1..] == parts[i + 1..];
      var next := MergeObjectSchema(merged, parts[i]);
      if !next.Done? { return Failed; }
      merged := next.value;
    }
    r := Done(merged);
  }

  // ---------------------------------------------------------------- projection

  predicate Kept(k: Key) { k != Nullable && k != Discriminator }

  function Sequence(outcomes: seq<Outcome<Schema>>): Outcome<seq<Schema>>
  {
    if OutOfFuel in outcomes then OutOfFuel
    else if Failed in outcomes then Failed
    else Done(seq(|outcomes|, i requires 0 <= i < |outcomes| =>
      assert outcomes[i] in outcomes; outcomes[i].value))
  }

  function Gather(outcomes: map<Key, Outcome<Schema>>): Outcome<map<Key, Schema>>
  {
    if exists k :: k in outcomes && outcomes[k].OutOfFuel? then OutOfFuel
    else if exists k :: k in outcomes && outcomes[k].Failed? then Failed
    else Done(map k | k in outcomes :: outcomes[k].value)
  }

  function Project(s: Schema, comps: Components, stack: seq<string>, fuel: nat): Outcome<Schema>
    decreases fuel, 1
  {
    if fuel == 0 then OutOfFuel
    else
      match ProjectChildren(s, comps, stack, fuel - 1)
      case Done(c) => Flatten(if IsNullable(s) then AddNull(c) else c, comps, stack, fuel - 1)
      case other => other
  }

  function ProjectChildren(s: Schema, comps: Components, stack: seq<string>, fuel: nat): Outcome<Schema>
    decreases fuel, 2
  {
    match s
    case Array(items) =>
      (match Sequence(seq(|items|, i requires 0 <= i < |items| => Project(items[i], comps, stack, fuel)))
       case Done(values) => Done(Array(values))
       case Failed => Failed
       case OutOfFuel => OutOfFuel)
    case Object(fields) =>
      (match Gather(map k | k in fields && Kept(k) :: Project(fields[k], comps, stack, fuel))
       case Done(values) => Done(Object(values))
       case Failed => Failed
       case OutOfFuel => OutOfFuel)
    case _ => Done(s)
  }

  function Resolve(part: Schema, comps: Components, stack: seq<string>, fuel: nat): Outcome<Schema>
    decreases fuel, 2
  {
    match Reference(part)
    case Some(name) =>
      if name in stack || name !in comps then Failed else Project(comps[name], comps, stack + [name], fuel)
    case None => Project(part, comps, stack, fuel)
  }

  function Flatten(s: Schema, comps: Components, stack: seq<string>, fuel: nat): Outcome<Schema>
    decreases fuel, 3
  {
    if !s.Object? then Done(s)
    else
      var rest := s.fields - {AllOf};
      match Entry(s, AllOf)
      case Some(Array(parts)) =>
        (match Sequence(seq(|parts|, i requires 0 <= i < |parts| => Resolve(parts[i], comps, stack, fuel)))
         case Done(flattened) => Reassemble(rest, flattened)
         case Failed => Failed
         case OutOfFuel => OutOfFuel)
      case _ => Done(Object(rest))
  }

  /** Object schemas are merged; anything else keeps `allOf`. */
  function Reassemble(rest: map<Key, Schema>, parts: seq<Schema>): Outcome<Schema>
  {
    if exists i :: 0 <= i < |parts| && !IsObjectSchema(parts[i]) then Done(Object(rest[AllOf := Array(parts)]))
    else
      match MergeAll(rest, parts)
      case Done(t) => Done(Object(t))
      case _ => Failed
  }

  // ---------------------------------------------------------------- the order of the parts

  function RequiredSet(s: Schema): set<Schema> { set x | x in RequiredList(s) }

  predicate HasProps(s: Schema) { Entry(s, Properties).Some? && s.fields[Properties].Object? }

  /** Two schemas describe their common properties alike. */
  ghost predicate Agree(a: Schema, b: Schema)
  {
    forall k :: k in Props(a) && k in Props(b) ==> Props(a)[k] == Props(b)[k]
  }

  ghost predicate Mergeable(target: map<Key, Schema>, parts: set<Schema>)
  {
    && (forall a :: a in parts ==> Agree(Object(target), a))
    && (forall a, b :: a in parts && b in parts ==> Agree(a, b))
    && (Properties in target && !target[Properties].Object? ==> forall a :: a in parts ==> !HasProps(a))
  }

  /** The properties of the result are those of the target and of every part. */
  ghost predicate CollectsProps(target: map<Key, Schema>, parts: set<Schema>, result: map<Key, Schema>)
  {
    && (forall k :: k in Props(Object(result)) <==> k in Props(Object(target)) || exists a :: a in parts && k in Props(a))
    && Agree(Object(target), Object(result))
    && (forall a :: a in parts ==> Agree(a, Object(result)))
  }

  ghost predicate CollectsRequired(target: map<Key, Schema>, parts: set<Schema>, result: map<Key, Schema>)
  {
    forall x :: x in RequiredSet(Object(result)) <==> x in RequiredSet(Object(target)) || exists a :: a in parts && x in RequiredSet(a)
  }

  lemma {:induction false} AppendMissingMeans(have: seq<Schema>, add: seq<Schema>)
    ensures forall x :: x in AppendMissing(have, add) <==> x in have || x in add
    decreases |add|
  {
    if add != [] {
      AppendMissingMeans(if add[0] in have then have else have + [add[0]], add[1..]);
      assert add == [add[0]] + add[1..];
    }
  }

  lemma MergeMeans(target: map<Key, Schema>, source: Schema)
    requires source.Object?
    ensures Merge(target, source).Done? <==>
              Agree(Object(target), source) && (Properties in target && !target[Properties].Object? ==> !HasProps(source))
    ensures Merge(target, source).Done? ==>
              var t := Merge(target, source).value;
              && Props(Object(t)) == Props(Object(target)) + Props(source)
              && RequiredSet(Object(t)) == RequiredSet(Object(target)) + RequiredSet(source)
              && (Properties in t && !t[Properties].Object? <==> Properties in target && !target[Properties].Object?)
  {
    AppendMissingMeans(RequiredList(Object(target)), RequiredList(source));
    if Merge(target, source).Done? {
      var m := MergeProperties(target, source).value;
      assert RequiredList(Object(m)) == RequiredList(Object(target));
      assert Props(Object(m)) == Props(Object(target)) + Props(source);
    }
  }

  /** Merging succeeds exactly when all members agree on their common properties (and the target
      does not hold properties that are not an object while a part has some), and then collects the
      properties and the required names of all of them. */
  lemma {:induction false} MergeAllMeans(target: map<Key, Schema>, parts: seq<Schema>, all: set<Schema>)
    requires forall a :: a in all <==> a in parts
    requires forall a :: a in all ==> a.Object?
    ensures MergeAll(target, parts).Done? <==> Mergeable(target, all)
    ensures MergeAll(target, parts).Done? ==>
              CollectsProps(target, all, MergeAll(target, parts).value) && CollectsRequired(target, all, MergeAll(target, parts).value)
    decreases |parts|
  {
    if parts != [] {
      var rest := set a | a in parts[1..];
      assert parts == [parts[0]] + parts[1..];
      assert all == rest + {parts[0]};
      MergeMeans(target, parts[0]);
      if Merge(target, parts[0]).Done? {
        var t := Merge(target, parts[0]).value;
        MergeAllMeans(t, parts[1..], rest);
        MergeableStep(target, t, parts[0], rest);
        if MergeAll(t, parts[1..]).Done? { CollectsStep(target, t, parts[0], rest, MergeAll(t, parts[1..]).value); }
      }
    }
  }

  lemma MergeableStep(target: map<Key, Schema>, t: map<Key, Schema>, head: Schema, rest: set<Schema>)
    requires Agree(Object(target), head) && (Properties in target && !target[Properties].Object? ==> !HasProps(head))
    requires Props(Object(t)) == Props(Object(target)) + Props(head)
    requires Properties in t && !t[Properties].Object? <==> Properties in target && !target[Properties].Object?
    ensures Mergeable(t, rest) <==> Mergeable(target, rest + {head})
  {
    forall a ensures Agree(Object(t), a) <==> Agree(Object(target), a) && Agree(head, a) {
      AgreeStep(target, t, head, a);
    }
  }

  lemma AgreeStep(target: map<Key, Schema>, t: map<Key, Schema>, head: Schema, a: Schema)
    requires Agree(Object(target), head) && Props(Object(t)) == Props(Object(target)) + Props(head)
    ensures Agree(Object(t), a) <==> Agree(Object(target), a) && Agree(head, a)
  {
  }

  lemma CollectsStep(target: map<Key, Schema>, t: map<Key, Schema>, head: Schema, rest: set<Schema>, result: map<Key, Schema>)
    requires Agree(Object(target), head) && Props(Object(t)) == Props(Object(target)) + Props(head)
    requires RequiredSet(Object(t)) == RequiredSet(Object(target)) + RequiredSet(head)
    requires CollectsProps(t, rest, result) && CollectsRequired(t, rest, result)
    ensures CollectsProps(target, rest + {head}, result) && CollectsRequired(target, rest + {head}, result)
  {
  }

  lemma SameCollection(target: map<Key, Schema>, all: set<Schema>, r: map<Key, Schema>, q: map<Key, Schema>)
    requires CollectsProps(target, all, r) && CollectsProps(target, all, q)
    requires CollectsRequired(target, all, r) && CollectsRequired(target, all, q)
    ensures Props(Object(r)) == Props(Object(q)) && RequiredSet(Object(r)) == RequiredSet(Object(q))
  {
  }

  lemma OrderOfPartsDoesNotMatter(target: map<Key, Schema>, parts: seq<Schema>, other: seq<Schema>)
    requires forall a :: a in parts <==> a in other
    requires forall a :: a in parts ==> IsObjectSchema(a)
    ensures MergeAll(target, parts).Done? <==> MergeAll(target, other).Done?
    ensures MergeAll(target, parts).Done? ==>
              var a := Object(MergeAll(target, parts).value); var b := Object(MergeAll(target, other).value);
              Props(a) == Props(b) && RequiredSet(a) == RequiredSet(b)
  {
    var all := set a | a in parts;
    MergeAllMeans(target, parts, all);
    MergeAllMeans(target, other, all);
    hide MergeAll, Mergeable, CollectsProps, CollectsRequired, IsObjectSchema, Props, RequiredSet;
    if MergeAll(target, parts).Done? {
      SameCollection(target, all, MergeAll(target, parts).value, MergeAll(target, other).value);
    }
  }

  function ResolveAll(parts: seq<Schema>, comps: Components, stack: seq<string>, fuel: nat): seq<Outcome<Schema>>
  {
    seq(|parts|, i requires 0 <= i < |parts| => Resolve(parts[i], comps, stack, fuel))
  }

  lemma SameResolutions(parts: seq<Schema>, other: seq<Schema>, comps: Components, stack: seq<string>, fuel: nat)
    requires forall a :: a in parts ==> a in other
    ensures forall o :: o in ResolveAll(parts, comps, stack, fuel) ==> o in ResolveAll(other, comps, stack, fuel)
  {
    forall i | 0 <= i < |parts| ensures ResolveAll(parts, comps, stack, fuel)[i] in ResolveAll(other, comps, stack, fuel) {
      assert parts[i] in other;
      var j :| 0 <= j < |other| && other[j] == parts[i];
      assert ResolveAll(other, comps, stack, fuel)[j] == Resolve(parts[i], comps, stack, fuel);
    }
  }

  lemma SequenceMeans(outcomes: seq<Outcome<Schema>>)
    ensures Sequence(outcomes).Done? <==> OutOfFuel !in outcomes && Failed !in outcomes
    ensures Sequence(outcomes).Done? ==> forall x :: x in Sequence(outcomes).value <==> Done(x) in outcomes
  {
    if Sequence(outcomes).Done? {
      var values := Sequence(outcomes).value;
      assert forall i :: 0 <= i < |outcomes| ==> outcomes[i] in outcomes && outcomes[i] == Done(values[i]);
    }
  }

  lemma ReassembleIgnoresOrder(rest: map<Key, Schema>, parts: seq<Schema>, other: seq<Schema>)
    requires forall a :: a in parts <==> a in other
    ensures Reassemble(rest, parts).Done? <==> Reassemble(rest, other).Done?
    ensures !Reassemble(rest, parts).OutOfFuel? && !Reassemble(rest, other).OutOfFuel?
    ensures Reassemble(rest, parts).Done? ==>
              Props(Reassemble(rest, parts).value) == Props(Reassemble(rest, other).value) &&
              RequiredSet(Reassemble(rest, parts).value) == RequiredSet(Reassemble(rest, other).value)
  {
    hide IsObjectSchema, MergeAll;
    var all := forall a :: a in parts ==> IsObjectSchema(a);
    assert all <==> forall i :: 0 <= i < |parts| ==> IsObjectSchema(parts[i]);
    assert all <==> forall i :: 0 <= i < |other| ==> IsObjectSchema(other[i]) by {
      assert forall i :: 0 <= i < |other| ==> other[i] in parts;
      assert forall i :: 0 <= i < |parts| ==> parts[i] in other;
    }
    if all {
      OrderOfPartsDoesNotMatter(rest, parts, other);
    } else {
      assert RequiredList(Object(rest[AllOf := Array(parts)])) == RequiredList(Object(rest[AllOf := Array(other)]));
    }
  }

  /** Flattening an object ends alike, and on success yields the same properties and the same
      required names, whatever the order and the repetition of the entries of its `allOf`. */
  lemma FlattenIgnoresOrder(rest: map<Key, Schema>, parts: seq<Schema>, other: seq<Schema>,
                            comps: Components, stack: seq<string>, fuel: nat)
    requires AllOf !in rest && forall a :: a in parts <==> a in other
    ensures var a := Flatten(Object(rest[AllOf := Array(parts)]), comps, stack, fuel);
            var b := Flatten(Object(rest[AllOf := Array(other)]), comps, stack, fuel);
            && (a.OutOfFuel? <==> b.OutOfFuel?) && (a.Failed? <==> b.Failed?)
            && (a.Done? ==> Props(a.value) == Props(b.value) && RequiredSet(a.value) == RequiredSet(b.value))
  {
    hide Resolve, Sequence, Reassemble, Props, RequiredSet;
    var mine, theirs := ResolveAll(parts, comps, stack, fuel), ResolveAll(other, comps, stack, fuel);
    SameResolutions(parts, other, comps, stack, fuel);
    SameResolutions(other, parts, comps, stack, fuel);
    SameSequence(mine, theirs);
    assert rest[AllOf := Array(parts)] - {AllOf} == rest && rest[AllOf := Array(other)] - {AllOf} == rest;
    if Sequence(mine).Done? {
      ReassembleIgnoresOrder(rest, Sequence(mine).value, Sequence(theirs).value);
    }
  }

  lemma SameSequence(mine: seq<Outcome<Schema>>, theirs: seq<Outcome<Schema>>)
    requires forall o :: o in mine <==> o in theirs
    ensures Sequence(mine).OutOfFuel? <==> Sequence(theirs).OutOfFuel?
    ensures Sequence(mine).Failed? <==> Sequence(theirs).Failed?
    ensures Sequence(mine).Done? ==> forall x :: x in Sequence(mine).value <==> x in Sequence(theirs).value
  {
    SequenceMeans(mine);
    SequenceMeans(theirs);
  }
}

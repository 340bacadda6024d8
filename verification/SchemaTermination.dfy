/** When the projection of a schema ends (backend/src/rpc/schema.rs:293-419). A schema that has been
    projected holds no unresolved `allOf` reference unless a nullable object hid one from flattening,
    or a component was itself a reference; without those, the names not yet on the stack, whether
    anything is left to resolve, and the height of the schema decrease in this order. With a hidden
    reference the projection need not end. */
module SchemaTermination {
  import opened Json
  import opened SchemaProjection

  // ---------------------------------------------------------------- fuel

  /** An outcome that has been reached does not depend on the fuel left. */
  lemma {:induction false} MoreFuelIsTheSame(s: Schema, comps: Components, stack: seq<string>, fuel: nat, more: nat)
    requires fuel <= more && !Project(s, comps, stack, fuel).OutOfFuel?
    ensures Project(s, comps, stack, more) == Project(s, comps, stack, fuel)
    decreases fuel, 1
  {
    hide ProjectChildren, Flatten, IsNullable, AddNull;
    ChildrenAreTheSame(s, comps, stack, fuel - 1, more - 1);
    var children := ProjectChildren(s, comps, stack, fuel - 1);
    if children.Done? {
      FlattenIsTheSame(if IsNullable(s) then AddNull(children.value) else children.value, comps, stack, fuel - 1, more - 1);
    }
  }

  lemma {:induction false} ChildrenAreTheSame(s: Schema, comps: Components, stack: seq<string>, fuel: nat, more: nat)
    requires fuel <= more && !ProjectChildren(s, comps, stack, fuel).OutOfFuel?
    ensures ProjectChildren(s, comps, stack, more) == ProjectChildren(s, comps, stack, fuel)
    decreases fuel, 2
  {
    match s
    case Array(items) =>
      var now := seq(|items|, i requires 0 <= i < |items| => Project(items[i], comps, stack, fuel));
      var later := seq(|items|, i requires 0 <= i < |items| => Project(items[i], comps, stack, more));
      forall i | 0 <= i < |items| ensures later[i] == now[i] {
        assert now[i] in now;
        MoreFuelIsTheSame(items[i], comps, stack, fuel, more);
      }
      assert now == later;
    case Object(fields) =>
      var now := map k | k in fields && Kept(k) :: Project(fields[k], comps, stack, fuel);
      var later := map k | k in fields && Kept(k) :: Project(fields[k], comps, stack, more);
      forall k | k in fields && Kept(k) ensures later[k] == now[k] {
        assert k in now && !now[k].OutOfFuel?;
        MoreFuelIsTheSame(fields[k], comps, stack, fuel, more);
      }
      assert now == later;
    case _ =>
  }

  lemma {:induction false} FlattenIsTheSame(s: Schema, comps: Components, stack: seq<string>, fuel: nat, more: nat)
    requires fuel <= more && !Flatten(s, comps, stack, fuel).OutOfFuel?
    ensures Flatten(s, comps, stack, more) == Flatten(s, comps, stack, fuel)
    decreases fuel, 3
  {
    if s.Object? && Entry(s, AllOf).Some? && s.fields[AllOf].Array? {
      var parts := s.fields[AllOf].items;
      var now := seq(|parts|, i requires 0 <= i < |parts| => Resolve(parts[i], comps, stack, fuel));
      var later := seq(|parts|, i requires 0 <= i < |parts| => Resolve(parts[i], comps, stack, more));
      forall i | 0 <= i < |parts| ensures later[i] == now[i] {
        assert now[i] in now;
        ResolveIsTheSame(parts[i], comps, stack, fuel, more);
      }
      assert now == later;
    }
  }

  lemma {:induction false} ResolveIsTheSame(part: Schema, comps: Components, stack: seq<string>, fuel: nat, more: nat)
    requires fuel <= more && !Resolve(part, comps, stack, fuel).OutOfFuel?
    ensures Resolve(part, comps, stack, more) == Resolve(part, comps, stack, fuel)
    decreases fuel, 2
  {
    var name := Reference(part);
    if name.Some? {
      if name.value !in stack && name.value in comps {
        MoreFuelIsTheSame(comps[name.value], comps, stack + [name.value], fuel, more);
      }
    } else {
      MoreFuelIsTheSame(part, comps, stack, fuel, more);
    }
  }

  // ---------------------------------------------------------------- what is left to resolve

  /** A component that is an object schema however it is projected. */
  predicate ObjectLike(s: Schema)
  {
    s.Object? &&
    ((Properties in s.fields && !(IsNullable(s) && Hides(Entry(s, Type)))) || (Entry(s, Type) == Some(Text("object")) && !IsNullable(s)))
  }

  /** Every part refers to a component that is an object schema, so the parts will be merged and the
      `allOf` list will be gone. */
  predicate Dissolves(parts: seq<Schema>, comps: Components)
  {
    forall i :: 0 <= i < |parts| ==>
      Reference(parts[i]).Some? && !IsNullable(parts[i]) && Reference(parts[i]).value in comps && ObjectLike(comps[Reference(parts[i]).value])
  }

  /** A schema that has been projected holds a reference in an `allOf` list only if a nullable object hid
      it from flattening. The rank of a component bounds the components that its projection can still
      lead to in this way; 0 means that nothing is left to resolve. */
  type Rank = string -> nat

  function Cost(rank: Rank, name: string): nat { if rank(name) == 0 then 1 else rank(name) }

  /** A list of parts that is kept puts them one `allOf` deeper. */
  function Deeper(depth: nat): nat { if depth == 0 then 0 else depth - 1 }

  function Under(k: Key, depth: nat): nat { if k == AllOf then Deeper(depth) else depth }

  /** References of cost `level` lie under fewer than `depth` lists that are kept, all others cost less. */
  predicate MayHide(name: string, parts: seq<Schema>, comps: Components, rank: Rank, level: nat, depth: nat)
  {
    name in comps ==>
      Cost(rank, name) < level || (Cost(rank, name) == level && (depth > 1 || (depth == 1 && Dissolves(parts, comps))))
  }

  /** The same for a reference that is going to be replaced by its projected component. */
  predicate MayResolve(name: string, parts: seq<Schema>, comps: Components, rank: Rank, level: nat, depth: nat)
  {
    name in comps ==>
      rank(name) == 0 || rank(name) < level || (rank(name) == level && (depth > 1 || (depth == 1 && Dissolves(parts, comps))))
  }

  ghost predicate AllHidden(allOf: Option<Schema>, comps: Components, rank: Rank, level: nat, depth: nat)
  {
    allOf.Some? && allOf.value.Array? ==>
      forall i :: 0 <= i < |allOf.value.items| && Reference(allOf.value.items[i]).Some? ==>
        MayHide(Reference(allOf.value.items[i]).value, allOf.value.items, comps, rank, level, depth)
  }

  ghost predicate AllResolvable(allOf: Option<Schema>, comps: Components, rank: Rank, level: nat, depth: nat)
  {
    allOf.Some? && allOf.value.Array? ==>
      forall i :: 0 <= i < |allOf.value.items| && Reference(allOf.value.items[i]).Some? ==>
        MayResolve(Reference(allOf.value.items[i]).value, allOf.value.items, comps, rank, level, depth)
  }

  /** A projected schema whose hidden references are within the given level and depth. At level 0 it
      has none. */
  ghost predicate Within(s: Schema, comps: Components, rank: Rank, level: nat, depth: nat)
  {
    match s
    case Array(items) => forall i :: 0 <= i < |items| ==> Within(items[i], comps, rank, level, depth)
    case Object(fields) =>
      && Nullable !in fields && AllHidden(Entry(s, AllOf), comps, rank, level, depth)
      && forall k :: k in fields ==> Within(fields[k], comps, rank, level, Under(k, depth))
    case _ => true
  }

  /** A schema whose projection is within the given level and depth. */
  ghost predicate Unfolds(s: Schema, comps: Components, rank: Rank, level: nat, depth: nat)
  {
    match s
    case Array(items) => forall i :: 0 <= i < |items| ==> Unfolds(items[i], comps, rank, level, depth)
    case Object(fields) =>
      && (if IsNullable(s) && Hides(Entry(s, Type)) then AllHidden(Entry(s, AllOf), comps, rank, level, depth)
          else AllResolvable(Entry(s, AllOf), comps, rank, level, depth))
      && forall k :: k in fields && Kept(k) ==> Unfolds(fields[k], comps, rank, level, Under(k, depth))
    case _ => true
  }

  /** Every component unfolds within its own rank, and none is itself a reference. So the rank falls along
      every reference that a nullable object hides, unless its list dissolves, and it does not rise along
      any other. */
  ghost predicate Ranked(comps: Components, rank: Rank)
  {
    forall name :: name in comps ==> Unfolds(comps[name], comps, rank, rank(name), 1) && Reference(comps[name]).None?
  }

  lemma {:induction false} WithinDeeper(s: Schema, comps: Components, rank: Rank, level: nat, depth: nat, more: nat)
    requires Within(s, comps, rank, level, depth) && depth <= more
    ensures Within(s, comps, rank, level, more)
  {
    match s
    case Array(items) =>
      forall i | 0 <= i < |items| ensures Within(items[i], comps, rank, level, more) { WithinDeeper(items[i], comps, rank, level, depth, more); }
    case Object(fields) =>
      forall k | k in fields ensures Within(fields[k], comps, rank, level, Under(k, more)) {
        WithinDeeper(fields[k], comps, rank, level, Under(k, depth), Under(k, more));
      }
    case _ =>
  }

  lemma {:induction false} WithinHigher(s: Schema, comps: Components, rank: Rank, level: nat, depth: nat, higher: nat, any: nat)
    requires Within(s, comps, rank, level, depth) && (level < higher || level == higher == 0)
    ensures Within(s, comps, rank, higher, any)
  {
    match s
    case Array(items) =>
      forall i | 0 <= i < |items| ensures Within(items[i], comps, rank, higher, any) { WithinHigher(items[i], comps, rank, level, depth, higher, any); }
    case Object(fields) =>
      forall k | k in fields ensures Within(fields[k], comps, rank, higher, Under(k, any)) {
        WithinHigher(fields[k], comps, rank, level, Under(k, depth), higher, Under(k, any));
      }
    case _ =>
  }

  /** If nothing costs as much as the level, the next lower level does, at a depth beyond the height. */
  lemma {:induction false} WithinLower(s: Schema, comps: Components, rank: Rank, level: nat, n: nat, depth: nat)
    requires Within(s, comps, rank, level + 1, 0) && Low(s, n) && depth >= n + 2
    ensures Within(s, comps, rank, level, depth)
  {
    match s
    case Array(items) =>
      forall i | 0 <= i < |items| ensures Within(items[i], comps, rank, level, depth) { WithinLower(items[i], comps, rank, level, n - 1, depth); }
    case Object(fields) =>
      forall k | k in fields ensures Within(fields[k], comps, rank, level, Under(k, depth)) {
        WithinLower(fields[k], comps, rank, level, n - 1, Under(k, depth));
      }
    case _ =>
  }

  ghost predicate Low(s: Schema, n: nat)
  {
    match s
    case Array(items) => n > 0 && forall i :: 0 <= i < |items| ==> Low(items[i], n - 1)
    case Object(fields) => n > 0 && forall k :: k in fields ==> Low(fields[k], n - 1)
    case _ => true
  }

  lemma {:induction false} LowIsMonotone(s: Schema, m: nat, n: nat)
    requires Low(s, m) && m <= n
    ensures Low(s, n)
  {
    match s
    case Array(items) => forall i | 0 <= i < |items| ensures Low(items[i], n - 1) { LowIsMonotone(items[i], m - 1, n - 1); }
    case Object(fields) => forall k | k in fields ensures Low(fields[k], n - 1) { LowIsMonotone(fields[k], m - 1, n - 1); }
    case _ =>
  }

  ghost function MaxOf<K(!new)>(m: map<K, nat>): (r: nat)
    ensures forall k :: k in m ==> m[k] <= r
    decreases |m|
  {
    if m == map[] then 0
    else
      var k :| k in m;
      var rest := MaxOf(m - {k});
      assert forall j :: j in m && j != k ==> j in m - {k};
      if m[k] > rest then m[k] else rest
  }

  ghost function MaxIn(s: seq<nat>): (r: nat)
    ensures forall i :: 0 <= i < |s| ==> s[i] <= r
  {
    if s == [] then 0
    else
      var rest := MaxIn(s[1..]);
      assert forall i :: 1 <= i < |s| ==> s[i] == s[1..][i - 1];
      if s[0] > rest then s[0] else rest
  }

  ghost function Height(s: Schema): nat
  {
    match s
    case Array(items) => 1 + MaxIn(seq(|items|, i requires 0 <= i < |items| => Height(items[i])))
    case Object(fields) => 1 + MaxOf(map k | k in fields :: Height(fields[k]))
    case _ => 0
  }

  lemma {:induction false} HeightIsEnough(s: Schema)
    ensures Low(s, Height(s))
  {
    match s
    case Array(items) =>
      var heights := seq(|items|, i requires 0 <= i < |items| => Height(items[i]));
      assert Height(s) == 1 + MaxIn(heights);
      forall i | 0 <= i < |items| ensures Low(items[i], Height(s) - 1) {
        HeightIsEnough(items[i]);
        assert heights[i] == Height(items[i]);
        LowIsMonotone(items[i], Height(items[i]), Height(s) - 1);
      }
    case Object(fields) =>
      var heights := map k | k in fields :: Height(fields[k]);
      assert Height(s) == 1 + MaxOf(heights);
      forall k | k in fields ensures Low(fields[k], Height(s) - 1) {
        HeightIsEnough(fields[k]);
        assert heights[k] == Height(fields[k]);
        LowIsMonotone(fields[k], Height(fields[k]), Height(s) - 1);
      }
    case _ =>
  }

  // ---------------------------------------------------------------- merging keeps levels and heights

  lemma {:induction false} ListsAreTidy(have: seq<Schema>, add: seq<Schema>, comps: Components, rank: Rank, level: nat, depth: nat, n: nat)
    ensures (forall x :: x in have + add ==> Within(x, comps, rank, level, depth)) ==>
              forall x :: x in AppendMissing(have, add) ==> Within(x, comps, rank, level, depth)
    ensures (forall x :: x in have + add ==> Low(x, n)) ==> forall x :: x in AppendMissing(have, add) ==> Low(x, n)
  {
    AppendMissingMeans(have, add);
  }

  lemma ListIsTidy(s: Schema, comps: Components, rank: Rank, level: nat, depth: nat, n: nat)
    requires s.Array?
    ensures Within(s, comps, rank, level, depth) ==> forall x :: x in s.items ==> Within(x, comps, rank, level, depth)
    ensures n > 0 && Low(s, n) ==> forall x :: x in s.items ==> Low(x, n - 1)
  {
  }

  lemma RequiredIsTidy(s: Schema, comps: Components, rank: Rank, level: nat, depth: nat, n: nat)
    ensures Within(s, comps, rank, level, depth) ==> forall x :: x in RequiredList(s) ==> Within(x, comps, rank, level, depth)
    ensures n > 1 && Low(s, n) ==> forall x :: x in RequiredList(s) ==> Low(x, n - 2)
  {
    if Entry(s, Required).Some? && s.fields[Required].Array? {
      ListIsTidy(s.fields[Required], comps, rank, level, depth, if n > 0 then n - 1 else 0);
    }
  }

  lemma MergeIsWithin(target: map<Key, Schema>, source: Schema, comps: Components, rank: Rank, level: nat, depth: nat)
    requires Within(Object(target), comps, rank, level, depth) && Within(source, comps, rank, level, depth)
    requires source.Object? && Merge(target, source).Done?
    ensures Within(Object(Merge(target, source).value), comps, rank, level, depth)
    ensures Reference(Object(Merge(target, source).value)) == if RefKey in target then Reference(Object(target)) else Reference(source)
  {
    var m := MergeProperties(target, source).value;
    PropertiesAreWithin(target, source, comps, rank, level, depth);
    RequiredIsWithin(m, source, comps, rank, level, depth);
    OthersAreWithin(MergeRequired(m, source), source.fields, comps, rank, level, depth);
    MergeKeepsReference(target, source);
    hide Within, MergeProperties, MergeRequired, MergeOthers, Reference;
  }

  lemma MergeKeepsReference(target: map<Key, Schema>, source: Schema)
    requires source.Object? && Merge(target, source).Done?
    ensures Reference(Object(Merge(target, source).value)) == if RefKey in target then Reference(Object(target)) else Reference(source)
    ensures RefKey in Merge(target, source).value <==> RefKey in target || RefKey in source.fields
  {
  }

  lemma PropertiesAreWithin(target: map<Key, Schema>, source: Schema, comps: Components, rank: Rank, level: nat, depth: nat)
    requires Within(Object(target), comps, rank, level, depth) && Within(source, comps, rank, level, depth)
    requires MergeProperties(target, source).Done?
    ensures Within(Object(MergeProperties(target, source).value), comps, rank, level, depth)
  {
    if Entry(source, Properties).Some? && source.fields[Properties].Object? {
      var have, add := Props(Object(target)), Props(source);
      assert Within(Object(have), comps, rank, level, depth) && Within(Object(add), comps, rank, level, depth);
      assert Entry(Object(have + add), AllOf) == (if AllOf in add then Entry(Object(add), AllOf) else Entry(Object(have), AllOf));
      assert Within(Object(have + add), comps, rank, level, depth);
    }
  }

  lemma RequiredIsWithin(target: map<Key, Schema>, source: Schema, comps: Components, rank: Rank, level: nat, depth: nat)
    requires Within(Object(target), comps, rank, level, depth) && Within(source, comps, rank, level, depth)
    ensures Within(Object(MergeRequired(target, source)), comps, rank, level, depth)
  {
    RequiredIsTidy(Object(target), comps, rank, level, depth, 0);
    RequiredIsTidy(source, comps, rank, level, depth, 0);
    ListsAreTidy(RequiredList(Object(target)), RequiredList(source), comps, rank, level, depth, 0);
    var required := AppendMissing(RequiredList(Object(target)), RequiredList(source));
    ListIsWithin(required, comps, rank, level, depth);
    FieldReplaced(target, Required, if required == [] then None else Some(Array(required)), comps, rank, level, depth);
  }

  lemma ListIsWithin(items: seq<Schema>, comps: Components, rank: Rank, level: nat, depth: nat)
    requires forall x :: x in items ==> Within(x, comps, rank, level, depth)
    ensures Within(Array(items), comps, rank, level, depth)
  {
    assert forall i :: 0 <= i < |items| ==> items[i] in items;
  }

  /** A field other than the list itself may be replaced or removed. */
  lemma FieldReplaced(target: map<Key, Schema>, k: Key, value: Option<Schema>, comps: Components, rank: Rank, level: nat, depth: nat)
    requires Within(Object(target), comps, rank, level, depth) && k != AllOf && k != Nullable
    requires value.Some? ==> Within(value.value, comps, rank, level, depth)
    ensures Within(Object(if value.Some? then target[k := value.value] else target - {k}), comps, rank, level, depth)
  {
    var after := if value.Some? then target[k := value.value] else target - {k};
    assert Entry(Object(after), AllOf) == Entry(Object(target), AllOf);
  }

  lemma OthersAreWithin(target: map<Key, Schema>, source: map<Key, Schema>, comps: Components, rank: Rank, level: nat, depth: nat)
    requires Within(Object(target), comps, rank, level, depth) && Within(Object(source), comps, rank, level, depth)
    ensures Within(Object(MergeOthers(target, source)), comps, rank, level, depth)
  {
    var merged := MergeOthers(target, source);
    assert Entry(Object(merged), AllOf) == if AllOf in target then Entry(Object(target), AllOf) else Entry(Object(source), AllOf);
  }

  lemma {:induction false} MergeAllIsWithin(target: map<Key, Schema>, parts: seq<Schema>, comps: Components, rank: Rank, level: nat, depth: nat)
    requires Within(Object(target), comps, rank, level, depth) && MergeAll(target, parts).Done?
    requires forall a :: a in parts ==> a.Object? && Within(a, comps, rank, level, depth) && Reference(a).None?
    ensures Within(Object(MergeAll(target, parts).value), comps, rank, level, depth)
    ensures Reference(Object(MergeAll(target, parts).value)) == Reference(Object(target))
    decreases |parts|
  {
    hide Within, Merge;
    if parts != [] {
      assert parts[0] in parts;
      MergeIsWithin(target, parts[0], comps, rank, level, depth);
      assert Reference(Object(Merge(target, parts[0]).value)) == Reference(Object(target));
      MergeAllIsWithin(Merge(target, parts[0]).value, parts[1..], comps, rank, level, depth);
    }
  }

  lemma MergeIsLow(target: map<Key, Schema>, source: Schema, n: nat)
    requires n > 1 && Low(Object(target), n) && Low(source, n - 1) && source.Object? && Merge(target, source).Done?
    ensures Low(Object(Merge(target, source).value), n)
  {
    LowIsMonotone(source, n - 1, n);
    var m := MergeProperties(target, source).value;
    PropertiesAreLow(target, source, n);
    RequiredIsLow(m, source, n);
  }

  lemma PropertiesAreLow(target: map<Key, Schema>, source: Schema, n: nat)
    requires n > 1 && Low(Object(target), n) && Low(source, n) && MergeProperties(target, source).Done?
    ensures Low(Object(MergeProperties(target, source).value), n)
  {
  }

  lemma RequiredIsLow(target: map<Key, Schema>, source: Schema, n: nat)
    requires n > 1 && Low(Object(target), n) && Low(source, n)
    ensures Low(Object(MergeRequired(target, source)), n)
  {
    RequiredIsTidy(Object(target), map[], _ => 0, 0, 0, n);
    RequiredIsTidy(source, map[], _ => 0, 0, 0, n);
    ListsAreTidy(RequiredList(Object(target)), RequiredList(source), map[], _ => 0, 0, 0, n - 2);
    var required := AppendMissing(RequiredList(Object(target)), RequiredList(source));
    assert forall i :: 0 <= i < |required| ==> required[i] in required;
    assert Low(Array(required), n - 1);
  }

  lemma {:induction false} MergeAllIsLow(target: map<Key, Schema>, parts: seq<Schema>, n: nat)
    requires n > 1 && Low(Object(target), n) && MergeAll(target, parts).Done?
    requires forall a :: a in parts ==> a.Object? && Low(a, n - 1)
    ensures Low(Object(MergeAll(target, parts).value), n)
    decreases |parts|
  {
    hide Low, Merge;
    if parts != [] {
      assert parts[0] in parts;
      MergeIsLow(target, parts[0], n);
      MergeAllIsLow(Merge(target, parts[0]).value, parts[1..], n);
    }
  }

  /** Merging takes no key away but an empty `required`, and a target that is an object schema stays one. */
  lemma {:induction false} MergeAllKeeps(target: map<Key, Schema>, parts: seq<Schema>)
    requires MergeAll(target, parts).Done?
    ensures Properties in target ==> Properties in MergeAll(target, parts).value
    ensures Type in target ==> Type in MergeAll(target, parts).value && MergeAll(target, parts).value[Type] == target[Type]
    decreases |parts|
  {
    if parts != [] { MergeAllKeeps(Merge(target, parts[0]).value, parts[1..]); }
  }

  /** What a part has become: it is no reference, and it lies deeper unless the list dissolves. */
  ghost predicate PartResult(v: Schema, comps: Components, rank: Rank, level: nat, depth: nat, dissolves: bool)
  {
    && Within(v, comps, rank, level, if dissolves then depth else Deeper(depth))
    && Reference(v).None? && (dissolves ==> IsObjectSchema(v))
  }

  /** Unresolved parts leave, and resolved ones take their place. */
  lemma ReassembleIsTidy(rest: map<Key, Schema>, parts: seq<Schema>, comps: Components, rank: Rank, level: nat, depth: nat, dissolves: bool,
                         n: nat, bounded: bool)
    requires Within(Object(rest), comps, rank, level, depth) && AllOf !in rest && Reassemble(rest, parts).Done?
    requires forall a :: a in parts ==> PartResult(a, comps, rank, level, depth, dissolves)
    requires bounded ==> n > 1 && Low(Object(rest), n) && forall a :: a in parts ==> Low(a, n - 2)
    ensures Within(Reassemble(rest, parts).value, comps, rank, level, depth)
    ensures Reference(Reassemble(rest, parts).value) == Reference(Object(rest))
    ensures bounded ==> Low(Reassemble(rest, parts).value, n)
  {
    hide MergeAll, IsObjectSchema;
    assert forall i :: 0 <= i < |parts| ==> parts[i] in parts;
    if forall i :: 0 <= i < |parts| ==> IsObjectSchema(parts[i]) {
      ObjectSchemasAreObjects(parts);
      forall a | a in parts ensures Within(a, comps, rank, level, depth) {
        WithinDeeper(a, comps, rank, level, if dissolves then depth else Deeper(depth), depth);
      }
      hide Within;
      MergeAllIsWithin(rest, parts, comps, rank, level, depth);
      if bounded {
        forall a | a in parts ensures Low(a, n - 1) { LowIsMonotone(a, n - 2, n - 1); }
        MergeAllIsLow(rest, parts, n);
      }
    } else {
      assert !dissolves;
      assert Within(Array(parts), comps, rank, level, Deeper(depth));
      KeptListIsTidy(rest, parts, comps, rank, level, depth);
    }
  }

  lemma KeptListIsTidy(rest: map<Key, Schema>, parts: seq<Schema>, comps: Components, rank: Rank, level: nat, depth: nat)
    requires Within(Object(rest), comps, rank, level, depth) && AllOf !in rest
    requires Within(Array(parts), comps, rank, level, Deeper(depth))
    requires forall i :: 0 <= i < |parts| ==> Reference(parts[i]).None?
    ensures Within(Object(rest[AllOf := Array(parts)]), comps, rank, level, depth)
  {
  }

  lemma ObjectSchemasAreObjects(parts: seq<Schema>)
    requires forall i :: 0 <= i < |parts| ==> IsObjectSchema(parts[i])
    ensures forall a :: a in parts ==> a.Object?
  {
  }

  // ---------------------------------------------------------------- termination

  /** The projection refers to a component only as the schema does, and does if the schema does and no
      null alternative is put around it. */
  predicate SameReference(s: Schema, o: Schema)
  {
    && (Reference(o).Some? ==> Reference(o) == Reference(s))
    && (Reference(s).Some? && !IsNullable(s) ==> Reference(o) == Reference(s))
  }

  ghost predicate SameShape(s: Schema, o: Schema)
  {
    && (s.Array? ==> o.Array? && |o.items| == |s.items| && forall i :: 0 <= i < |s.items| ==> SameReference(s.items[i], o.items[i]))
    && (s.Object? ==> o.Object?)
    && (!s.Array? && !s.Object? ==> o == s)
  }

  /** Before and after projection. `pass` 1 is any schema, 0 one that has been projected; at level 0 a
      projected schema does not grow. */
  ghost predicate Good(s: Schema, o: Schema, comps: Components, rank: Rank, pass: nat, level: nat, depth: nat, n: nat)
  {
    && Within(o, comps, rank, level, depth) && SameReference(s, o) && SameShape(s, o)
    && (ObjectLike(s) ==> IsObjectSchema(o))
    && (pass == 0 && level == 0 ==> Low(o, n))
  }

  ghost predicate Finishes(s: Schema, comps: Components, stack: seq<string>, rank: Rank, pass: nat, level: nat, depth: nat, n: nat, fuel: nat)
  {
    var r := Project(s, comps, stack, fuel);
    !r.OutOfFuel? && (r.Done? ==> Good(s, r.value, comps, rank, pass, level, depth, n))
  }

  lemma FinishesLater(s: Schema, comps: Components, stack: seq<string>, rank: Rank, pass: nat, level: nat, depth: nat, n: nat, fuel: nat, more: nat)
    requires Finishes(s, comps, stack, rank, pass, level, depth, n, fuel) && fuel <= more
    ensures Finishes(s, comps, stack, rank, pass, level, depth, n, more)
  {
    MoreFuelIsTheSame(s, comps, stack, fuel, more);
  }

  function Unvisited(comps: Components, stack: seq<string>): set<string>
  {
    set name | name in comps && name !in stack
  }

  ghost predicate Ready(s: Schema, comps: Components, rank: Rank, pass: nat, level: nat, depth: nat, n: nat)
  {
    Low(s, n) && pass <= 1 && if pass == 1 then Unfolds(s, comps, rank, level, depth) else Within(s, comps, rank, level, depth)
  }

  lemma {:induction false} ItemsFinish(items: seq<Schema>, comps: Components, stack: seq<string>, rank: Rank, pass: nat, level: nat, depth: nat, n: nat)
    returns (fuel: nat)
    requires Ranked(comps, rank) && pass <= 1 && forall i :: 0 <= i < |items| ==> Ready(items[i], comps, rank, pass, level, depth, n)
    ensures forall i :: 0 <= i < |items| ==> Finishes(items[i], comps, stack, rank, pass, level, depth, n, fuel)
    decreases |Unvisited(comps, stack)|, pass, level, depth, n, 4, |items|
  {
    hide Ready, Finishes, Ranked;
    fuel := 0;
    if items != [] {
      var last := |items| - 1;
      var rest := ItemsFinish(items[..last], comps, stack, rank, pass, level, depth, n);
      var own := Terminates(items[last], comps, stack, rank, pass, level, depth, n);
      fuel := if rest > own then rest else own;
      forall i | 0 <= i < last ensures Finishes(items[i], comps, stack, rank, pass, level, depth, n, fuel) {
        assert items[i] == items[..last][i];
        FinishesLater(items[i], comps, stack, rank, pass, level, depth, n, rest, fuel);
      }
      FinishesLater(items[last], comps, stack, rank, pass, level, depth, n, own, fuel);
    }
  }

  lemma {:induction false} FieldsFinish(fields: map<Key, Schema>, keys: set<Key>, comps: Components, stack: seq<string>, rank: Rank,
                                        pass: nat, level: nat, depth: nat, n: nat)
    returns (fuel: nat)
    requires Ranked(comps, rank) && pass <= 1 && keys <= fields.Keys
    requires forall k :: k in keys ==> Ready(fields[k], comps, rank, pass, level, Under(k, depth), n)
    ensures forall k :: k in keys ==> Finishes(fields[k], comps, stack, rank, pass, level, Under(k, depth), n, fuel)
    decreases |Unvisited(comps, stack)|, pass, level, depth, n, 4, |keys|
  {
    hide Ready, Finishes, Ranked;
    fuel := 0;
    if keys != {} {
      var one :| one in keys;
      var rest := FieldsFinish(fields, keys - {one}, comps, stack, rank, pass, level, depth, n);
      var own := Terminates(fields[one], comps, stack, rank, pass, level, Under(one, depth), n);
      fuel := if rest > own then rest else own;
      forall k | k in keys && k != one ensures Finishes(fields[k], comps, stack, rank, pass, level, Under(k, depth), n, fuel) {
        assert k in keys - {one};
        FinishesLater(fields[k], comps, stack, rank, pass, level, Under(k, depth), n, rest, fuel);
      }
      FinishesLater(fields[one], comps, stack, rank, pass, level, Under(one, depth), n, own, fuel);
    }
  }

  /** A part of an `allOf` that has been projected once. */
  ghost predicate PartReady(part: Schema, parts: seq<Schema>, comps: Components, rank: Rank, pass: nat, level: nat, depth: nat, n: nat)
  {
    && Within(part, comps, rank, level, Deeper(depth)) && part in parts
    && (Reference(part).Some? ==> MayResolve(Reference(part).value, parts, comps, rank, level, depth))
    && (pass == 0 && level == 0 ==> Low(part, n) && (Reference(part).Some? ==> Reference(part).value !in comps))
  }

  ghost predicate PartFinishes(part: Schema, comps: Components, stack: seq<string>, rank: Rank, pass: nat, level: nat, depth: nat, dissolves: bool,
                               n: nat, fuel: nat)
  {
    var r := Resolve(part, comps, stack, fuel);
    !r.OutOfFuel? && (r.Done? ==> PartResult(r.value, comps, rank, level, depth, dissolves) && (pass == 0 && level == 0 ==> Low(r.value, n)))
  }

  lemma {:induction false} PartTerminates(part: Schema, parts: seq<Schema>, comps: Components, stack: seq<string>, rank: Rank,
                                          pass: nat, level: nat, depth: nat, n: nat)
    returns (fuel: nat)
    requires Ranked(comps, rank) && pass <= 1 && PartReady(part, parts, comps, rank, pass, level, depth, n)
    ensures PartFinishes(part, comps, stack, rank, pass, level, depth, Dissolves(parts, comps), n, fuel)
    decreases |Unvisited(comps, stack)|, pass, level, depth, n, 5, 0
  {
    fuel := 0;
    var name := Reference(part);
    if name.Some? {
      if name.value !in stack && name.value in comps {
        var c := comps[name.value];
        HeightIsEnough(c);
        VisitingShrinks(comps, stack, name.value);
        fuel := Terminates(c, comps, stack + [name.value], rank, 1, rank(name.value), 1, Height(c));
        ResolvedPart(part, parts, comps, stack, rank, level, depth, fuel);
      }
    } else {
      if pass == 0 && level == 0 {
        fuel := Terminates(part, comps, stack, rank, 0, 0, Deeper(depth), n);
      } else {
        HeightIsEnough(part);
        if pass == 1 || depth > 0 {
          fuel := Terminates(part, comps, stack, rank, 0, level, Deeper(depth), Height(part));
        } else {
          WithinLower(part, comps, rank, level - 1, Height(part), Height(part) + 2);
          fuel := Terminates(part, comps, stack, rank, 0, level - 1, Height(part) + 2, Height(part));
          var r := Project(part, comps, stack, fuel);
          if r.Done? { WithinHigher(r.value, comps, rank, level - 1, Height(part) + 2, level, 0); }
        }
      }
      assert part in parts && Reference(part).None?;
      assert !Dissolves(parts, comps);
    }
  }

  /** A component in the place of a reference. */
  lemma ResolvedPart(part: Schema, parts: seq<Schema>, comps: Components, stack: seq<string>, rank: Rank, level: nat, depth: nat, fuel: nat)
    requires Ranked(comps, rank) && Reference(part).Some? && Reference(part).value in comps && part in parts
    requires MayResolve(Reference(part).value, parts, comps, rank, level, depth)
    requires var m := Reference(part).value;
             Finishes(comps[m], comps, stack + [m], rank, 1, rank(m), 1, Height(comps[m]), fuel)
    ensures var m := Reference(part).value; var r := Project(comps[m], comps, stack + [m], fuel);
            r.Done? ==> PartResult(r.value, comps, rank, level, depth, Dissolves(parts, comps))
  {
    var m := Reference(part).value;
    var r := Project(comps[m], comps, stack + [m], fuel);
    var d := if Dissolves(parts, comps) then depth else Deeper(depth);
    if r.Done? {
      if rank(m) < level {
        WithinHigher(r.value, comps, rank, rank(m), 1, level, d);
      } else if rank(m) == 0 {
        WithinHigher(r.value, comps, rank, 0, 1, level, d);
      } else {
        WithinDeeper(r.value, comps, rank, level, 1, d);
      }
    }
  }

  lemma VisitingShrinks(comps: Components, stack: seq<string>, name: string)
    requires name in comps && name !in stack
    ensures |Unvisited(comps, stack + [name])| < |Unvisited(comps, stack)|
  {
    var after, before := Unvisited(comps, stack + [name]), Unvisited(comps, stack);
    assert name in stack + [name] && name in before;
    forall x | x in after ensures x in before {
      assert x !in stack + [name];
    }
    SmallerSet(after, before);
  }

  lemma SmallerSet<T>(a: set<T>, b: set<T>)
    requires a < b
    ensures |a| < |b|
  {
    var rest := b - a;
    assert b == a + rest;
  }

  lemma {:induction false} PartsFinish(some: seq<Schema>, parts: seq<Schema>, comps: Components, stack: seq<string>, rank: Rank,
                                       pass: nat, level: nat, depth: nat, n: nat)
    returns (fuel: nat)
    requires Ranked(comps, rank) && pass <= 1
    requires forall i :: 0 <= i < |some| ==> PartReady(some[i], parts, comps, rank, pass, level, depth, n)
    ensures forall i :: 0 <= i < |some| ==> PartFinishes(some[i], comps, stack, rank, pass, level, depth, Dissolves(parts, comps), n, fuel)
    decreases |Unvisited(comps, stack)|, pass, level, depth, n, 6, |some|
  {
    hide PartReady, Ranked, PartResult;
    fuel := 0;
    if some != [] {
      var last := |some| - 1;
      var rest := PartsFinish(some[..last], parts, comps, stack, rank, pass, level, depth, n);
      var own := PartTerminates(some[last], parts, comps, stack, rank, pass, level, depth, n);
      fuel := if rest > own then rest else own;
      forall i | 0 <= i < last ensures PartFinishes(some[i], comps, stack, rank, pass, level, depth, Dissolves(parts, comps), n, fuel) {
        assert some[i] == some[..last][i];
        ResolveIsTheSame(some[i], comps, stack, rest, fuel);
      }
      ResolveIsTheSame(some[last], comps, stack, own, fuel);
    }
  }

  /** An object whose fields have been projected and whose `allOf` is still to be flattened. */
  ghost predicate Unflattened(c: Schema, comps: Components, rank: Rank, pass: nat, level: nat, depth: nat, n: nat)
  {
    && c.Object? && Within(Object(c.fields - {AllOf}), comps, rank, level, depth)
    && (Entry(c, AllOf).Some? ==> Within(c.fields[AllOf], comps, rank, level, Deeper(depth)))
    && AllResolvable(Entry(c, AllOf), comps, rank, level, depth)
    && (pass == 0 && level == 0 ==> AllHidden(Entry(c, AllOf), comps, rank, level, depth) && Low(c, n))
  }

  ghost predicate Flattened(c: Schema, comps: Components, stack: seq<string>, rank: Rank, pass: nat, level: nat, depth: nat, n: nat, fuel: nat)
    requires c.Object?
  {
    var r := Flatten(c, comps, stack, fuel);
    && !r.OutOfFuel?
    && (r.Done? ==>
          && r.value.Object? && Within(r.value, comps, rank, level, depth) && Reference(r.value) == Reference(c)
          && (pass == 0 && level == 0 ==> Low(r.value, n))
          && (Properties in c.fields ==> Properties in r.value.fields)
          && (Type in c.fields ==> Entry(r.value, Type) == Entry(c, Type)))
  }

  lemma {:induction false} FlattenTerminates(c: Schema, comps: Components, stack: seq<string>, rank: Rank, pass: nat, level: nat, depth: nat, n: nat)
    returns (fuel: nat)
    requires Ranked(comps, rank) && pass <= 1 && n > 0 && Unflattened(c, comps, rank, pass, level, depth, n)
    ensures Flattened(c, comps, stack, rank, pass, level, depth, n, fuel)
    decreases |Unvisited(comps, stack)|, pass, level, depth, n, 1, 0
  {
    fuel := 0;
    var rest := c.fields - {AllOf};
    assert Reference(Object(rest)) == Reference(c);
    if Entry(c, AllOf).Some? && c.fields[AllOf].Array? {
      var parts := c.fields[AllOf].items;
      var bounded := pass == 0 && level == 0;
      assert bounded ==> Low(c.fields[AllOf], n - 1);
      var m := if bounded then n - 2 else n - 1;
      ListIsTidy(c.fields[AllOf], comps, rank, level, Deeper(depth), n - 1);
      assert forall i :: 0 <= i < |parts| ==> parts[i] in parts;
      fuel := PartsFinish(parts, parts, comps, stack, rank, pass, level, depth, m);
      FlattenedParts(c, comps, stack, rank, pass, level, depth, n, m, fuel);
    }
  }

  lemma FlattenedParts(c: Schema, comps: Components, stack: seq<string>, rank: Rank, pass: nat, level: nat, depth: nat, n: nat, m: nat, fuel: nat)
    requires c.Object? && Within(Object(c.fields - {AllOf}), comps, rank, level, depth) && Entry(c, AllOf).Some? && c.fields[AllOf].Array?
    requires var parts := c.fields[AllOf].items;
             forall i :: 0 <= i < |parts| ==> PartFinishes(parts[i], comps, stack, rank, pass, level, depth, Dissolves(parts, comps), m, fuel)
    requires pass == 0 && level == 0 ==> n > 1 && m == n - 2 && Low(c, n)
    ensures Flattened(c, comps, stack, rank, pass, level, depth, n, fuel)
  {
    hide Within, Dissolves;
    var rest, parts := c.fields - {AllOf}, c.fields[AllOf].items;
    var bounded := pass == 0 && level == 0;
    assert Reference(Object(rest)) == Reference(c);
    PartsAreTidy(parts, comps, stack, rank, pass, level, depth, Dissolves(parts, comps), m, fuel);
    var r := Sequence(ResolveAll(parts, comps, stack, fuel));
    hide PartFinishes, Reference, IsObjectSchema;
    if r.Done? && Reassemble(rest, r.value).Done? {
      ReassembleIsTidy(rest, r.value, comps, rank, level, depth, Dissolves(parts, comps), n, bounded);
      ReassembleKeeps(rest, r.value);
    }
  }

  lemma ReassembleKeeps(rest: map<Key, Schema>, parts: seq<Schema>)
    requires Reassemble(rest, parts).Done? && AllOf !in rest
    ensures Reassemble(rest, parts).value.Object?
    ensures Properties in rest ==> Properties in Reassemble(rest, parts).value.fields
    ensures Type in rest ==> Entry(Reassemble(rest, parts).value, Type) == Some(rest[Type])
  {
    if forall i :: 0 <= i < |parts| ==> IsObjectSchema(parts[i]) { MergeAllKeeps(rest, parts); }
  }

  lemma PartsAreTidy(parts: seq<Schema>, comps: Components, stack: seq<string>, rank: Rank, pass: nat, level: nat, depth: nat, dissolves: bool, n: nat, fuel: nat)
    requires forall i :: 0 <= i < |parts| ==> PartFinishes(parts[i], comps, stack, rank, pass, level, depth, dissolves, n, fuel)
    ensures var r := Sequence(ResolveAll(parts, comps, stack, fuel));
            && !r.OutOfFuel?
            && (r.Done? ==> forall a :: a in r.value ==>
                  PartResult(a, comps, rank, level, depth, dissolves) && (pass == 0 && level == 0 ==> Low(a, n)))
  {
    hide PartResult;
  }

  lemma ArrayProjects(s: Schema, comps: Components, stack: seq<string>, rank: Rank, pass: nat, level: nat, depth: nat, n: nat, fuel: nat)
    requires s.Array? && n > 0
    requires forall i :: 0 <= i < |s.items| ==> Finishes(s.items[i], comps, stack, rank, pass, level, depth, n - 1, fuel)
    ensures Finishes(s, comps, stack, rank, pass, level, depth, n, fuel + 1)
  {
  }

  /** References in a list stay references to the same components, so a list that dissolves still does. */
  lemma PartsKeepReferences(s: Schema, o: Schema, comps: Components, rank: Rank, level: nat, depth: nat)
    requires SameShape(s, o) && s.Array? && forall i :: 0 <= i < |s.items| ==> o.Array? && i < |o.items| && !IsNullable(o.items[i])
    ensures Dissolves(s.items, comps) ==> Dissolves(o.items, comps)
    ensures AllHidden(Some(s), comps, rank, level, depth) ==> AllHidden(Some(o), comps, rank, level, depth)
    ensures AllResolvable(Some(s), comps, rank, level, depth) ==> AllResolvable(Some(o), comps, rank, level, depth)
  {
    hide Reference;
    assert Dissolves(s.items, comps) ==> Dissolves(o.items, comps) by {
      if Dissolves(s.items, comps) {
        forall i | 0 <= i < |o.items| ensures Reference(o.items[i]) == Reference(s.items[i]) {
          assert SameReference(s.items[i], o.items[i]);
        }
      }
    }
    forall i | 0 <= i < |o.items| && Reference(o.items[i]).Some? ensures Reference(o.items[i]) == Reference(s.items[i]) {
      assert SameReference(s.items[i], o.items[i]);
    }
    hide Dissolves;
  }

  lemma HiddenIsResolvable(allOf: Option<Schema>, comps: Components, rank: Rank, level: nat, depth: nat)
    requires AllHidden(allOf, comps, rank, level, depth)
    ensures AllResolvable(allOf, comps, rank, level, depth)
  {
  }

  /** The fields of an object after their projection. */
  ghost predicate Projected(s: Schema, values: map<Key, Schema>, comps: Components, rank: Rank, pass: nat, level: nat, depth: nat, n: nat)
  {
    && s.Object? && values.Keys == (set k | k in s.fields && Kept(k))
    && forall k :: k in values ==> Good(s.fields[k], values[k], comps, rank, pass, level, Under(k, depth), n)
  }

  lemma ListOfParts(s: Schema, values: map<Key, Schema>, comps: Components, rank: Rank, pass: nat, level: nat, depth: nat, n: nat)
    requires Projected(s, values, comps, rank, pass, level, depth, n)
    ensures AllHidden(Entry(s, AllOf), comps, rank, level, depth) ==> AllHidden(Entry(Object(values), AllOf), comps, rank, level, depth)
    ensures AllResolvable(Entry(s, AllOf), comps, rank, level, depth) ==> AllResolvable(Entry(Object(values), AllOf), comps, rank, level, depth)
  {
    if AllOf in values && values[AllOf].Array? {
      assert Good(s.fields[AllOf], values[AllOf], comps, rank, pass, level, Deeper(depth), n);
      if s.fields[AllOf].Array? {
        forall i | 0 <= i < |values[AllOf].items| ensures !IsNullable(values[AllOf].items[i]) {
          assert Within(values[AllOf].items[i], comps, rank, level, Deeper(depth));
        }
        PartsKeepReferences(s.fields[AllOf], values[AllOf], comps, rank, level, depth);
      }
    }
  }

  /** What an object is after its fields have been projected and null has been made explicit. */
  lemma ChildrenAreReady(s: Schema, values: map<Key, Schema>, comps: Components, rank: Rank, pass: nat, level: nat, depth: nat, n: nat)
    requires n > 0 && Ready(s, comps, rank, pass, level, depth, n) && Projected(s, values, comps, rank, pass, level, depth, n - 1)
    ensures var c := if IsNullable(s) then AddNull(Object(values)) else Object(values);
            && c.Object? && Unflattened(c, comps, rank, pass, level, depth, n) && SameReference(s, c)
            && (ObjectLike(s) ==> Properties in c.fields || Entry(c, Type) == Some(Text("object")))
  {
    var c := Object(values);
    RestIsWithin(s, values, comps, rank, pass, level, depth, n - 1);
    ListOfParts(s, values, comps, rank, pass, level, depth, n - 1);
    FieldsKeepShape(s, values, comps, rank, pass, level, depth, n - 1);
    if pass == 0 {
      assert Nullable !in s.fields && AllHidden(Entry(s, AllOf), comps, rank, level, depth);
      HiddenIsResolvable(Entry(c, AllOf), comps, rank, level, depth);
      if level == 0 { assert Low(c, n); }
    } else {
      if IsNullable(s) { NullIsReady(s, c, comps, rank, level, depth, n); }
    }
  }

  lemma RestIsWithin(s: Schema, values: map<Key, Schema>, comps: Components, rank: Rank, pass: nat, level: nat, depth: nat, n: nat)
    requires Projected(s, values, comps, rank, pass, level, depth, n)
    ensures Within(Object(values - {AllOf}), comps, rank, level, depth)
    ensures Entry(Object(values), AllOf).Some? ==> Within(values[AllOf], comps, rank, level, Deeper(depth))
    ensures pass == 0 && level == 0 ==> forall k :: k in values ==> Low(values[k], n)
  {
    assert Nullable !in values;
    assert Entry(Object(values - {AllOf}), AllOf).None?;
  }

  lemma FieldsKeepShape(s: Schema, values: map<Key, Schema>, comps: Components, rank: Rank, pass: nat, level: nat, depth: nat, n: nat)
    requires Projected(s, values, comps, rank, pass, level, depth, n)
    ensures Reference(Object(values)) == Reference(s)
    ensures Hides(Entry(Object(values), Type)) <==> Hides(Entry(s, Type))
    ensures Properties in values <==> Properties in s.fields
    ensures Entry(s, Type) == Some(Text("object")) ==> Entry(Object(values), Type) == Some(Text("object"))
  {
    if RefKey in values { assert SameShape(s.fields[RefKey], values[RefKey]); }
    if Type in values { assert SameShape(s.fields[Type], values[Type]); }
  }

  lemma NullIsReady(s: Schema, c: Schema, comps: Components, rank: Rank, level: nat, depth: nat, n: nat)
    requires s.Object? && IsNullable(s) && c.Object? && Within(Object(c.fields - {AllOf}), comps, rank, level, depth)
    requires Entry(c, AllOf).Some? ==> Within(c.fields[AllOf], comps, rank, level, Deeper(depth))
    requires Hides(Entry(c, Type)) <==> Hides(Entry(s, Type))
    requires Properties in c.fields <==> Properties in s.fields
    requires Hides(Entry(s, Type)) ==> AllHidden(Entry(c, AllOf), comps, rank, level, depth)
    requires !Hides(Entry(s, Type)) ==> AllResolvable(Entry(c, AllOf), comps, rank, level, depth)
    requires Reference(c) == Reference(s)
    ensures Unflattened(AddNull(c), comps, rank, 1, level, depth, n) && SameReference(s, AddNull(c))
    ensures ObjectLike(s) ==> Properties in AddNull(c).fields
  {
    if Hides(Entry(c, Type)) {
      HiddenInAlternative(c, comps, rank, level, depth);
    } else {
      var kind := AddNull(c).fields[Type];
      assert c.fields[Type] == (c.fields - {AllOf})[Type];
      assert Within(kind, comps, rank, level, depth);
      assert AddNull(c).fields - {AllOf} == (c.fields - {AllOf})[Type := kind];
      assert Within(Object((c.fields - {AllOf})[Type := kind]), comps, rank, level, depth);
      assert Entry(AddNull(c), AllOf) == Entry(c, AllOf);
    }
  }

  lemma HiddenInAlternative(c: Schema, comps: Components, rank: Rank, level: nat, depth: nat)
    requires c.Object? && Within(Object(c.fields - {AllOf}), comps, rank, level, depth)
    requires Entry(c, AllOf).Some? ==> Within(c.fields[AllOf], comps, rank, level, Deeper(depth))
    requires AllHidden(Entry(c, AllOf), comps, rank, level, depth)
    ensures Within(Alternative(c), comps, rank, level, depth) && Alternative(c).fields - {AllOf} == Alternative(c).fields
    ensures Reference(Alternative(c)).None? && Entry(Alternative(c), AllOf).None?
  {
    assert Within(c, comps, rank, level, depth) by {
      assert Nullable !in (c.fields - {AllOf});
      forall k | k in c.fields ensures Within(c.fields[k], comps, rank, level, Under(k, depth)) {
        if k != AllOf { assert c.fields[k] == (c.fields - {AllOf})[k]; }
      }
    }
    assert Within(NULL_TYPE, comps, rank, level, depth);
    assert Within(Array([c, NULL_TYPE]), comps, rank, level, depth);
  }

  lemma {:induction false} Terminates(s: Schema, comps: Components, stack: seq<string>, rank: Rank, pass: nat, level: nat, depth: nat, n: nat)
    returns (fuel: nat)
    requires Ranked(comps, rank) && Ready(s, comps, rank, pass, level, depth, n)
    ensures Finishes(s, comps, stack, rank, pass, level, depth, n, fuel)
    decreases |Unvisited(comps, stack)|, pass, level, depth, n, 3, 0
  {
    match s {
      case Array(items) =>
        var own := ItemsFinish(items, comps, stack, rank, pass, level, depth, n - 1);
        ArrayProjects(s, comps, stack, rank, pass, level, depth, n, own);
        fuel := own + 1;
      case Object(fields) =>
        var own := FieldsFinish(fields, (set k | k in fields && Kept(k)), comps, stack, rank, pass, level, depth, n - 1);
        fuel := ObjectTerminates(s, comps, stack, rank, pass, level, depth, n, own);
      case _ => fuel := 1;
    }
  }

  /** The fields of an object finish with `own`; what they become is ready to be flattened. */
  lemma FieldsAreGathered(s: Schema, comps: Components, stack: seq<string>, rank: Rank, pass: nat, level: nat, depth: nat, n: nat, own: nat)
    returns (values: Option<map<Key, Schema>>)
    requires s.Object?
    requires forall k :: k in s.fields && Kept(k) ==> Finishes(s.fields[k], comps, stack, rank, pass, level, Under(k, depth), n, own)
    ensures values.None? ==> ProjectChildren(s, comps, stack, own).Failed?
    ensures values.Some? ==>
              ProjectChildren(s, comps, stack, own) == Done(Object(values.value)) &&
              Projected(s, values.value, comps, rank, pass, level, depth, n)
  {
    hide Good;
    var outcomes := map k | k in s.fields && Kept(k) :: Project(s.fields[k], comps, stack, own);
    assert forall k :: k in outcomes ==> !outcomes[k].OutOfFuel?;
    values := if Gather(outcomes).Done? then Some(Gather(outcomes).value) else None;
  }

  lemma ObjectAssembles(s: Schema, c: Schema, comps: Components, stack: seq<string>, rank: Rank, pass: nat, level: nat, depth: nat, n: nat, fuel: nat)
    requires s.Object? && ProjectChildren(s, comps, stack, fuel).Done? && c.Object?
    requires c == if IsNullable(s) then AddNull(ProjectChildren(s, comps, stack, fuel).value) else ProjectChildren(s, comps, stack, fuel).value
    requires SameReference(s, c) && (ObjectLike(s) ==> Properties in c.fields || Entry(c, Type) == Some(Text("object")))
    requires Flattened(c, comps, stack, rank, pass, level, depth, n, fuel)
    ensures Finishes(s, comps, stack, rank, pass, level, depth, n, fuel + 1)
  {
    hide Within, ObjectLike, Reference;
  }

  lemma {:induction false} ObjectTerminates(s: Schema, comps: Components, stack: seq<string>, rank: Rank, pass: nat, level: nat, depth: nat, n: nat, own: nat)
    returns (fuel: nat)
    requires Ranked(comps, rank) && Ready(s, comps, rank, pass, level, depth, n) && s.Object?
    requires n > 0 && forall k :: k in s.fields && Kept(k) ==> Finishes(s.fields[k], comps, stack, rank, pass, level, Under(k, depth), n - 1, own)
    ensures Finishes(s, comps, stack, rank, pass, level, depth, n, fuel)
    decreases |Unvisited(comps, stack)|, pass, level, depth, n, 2, 0
  {
    assert pass <= 1;
    hide Ready, Reference, Flatten, ProjectChildren, AddNull, IsNullable, Finishes, Ranked, Within, Unfolds, Projected, Flattened, ObjectLike;
    var values := FieldsAreGathered(s, comps, stack, rank, pass, level, depth, n - 1, own);
    fuel := own + 1;
    if values.Some? {
      ChildrenAreReady(s, values.value, comps, rank, pass, level, depth, n);
      var c := if IsNullable(s) then AddNull(Object(values.value)) else Object(values.value);
      hide SameReference, Unflattened;
      var more := FlattenTerminates(c, comps, stack, rank, pass, level, depth, n);
      fuel := EnoughForObject(s, values.value, c, comps, stack, rank, pass, level, depth, n, own, more);
    } else {
      FailedFinishes(s, comps, stack, rank, pass, level, depth, n, own);
    }
  }

  lemma EnoughForObject(s: Schema, values: map<Key, Schema>, c: Schema, comps: Components, stack: seq<string>, rank: Rank,
                        pass: nat, level: nat, depth: nat, n: nat, own: nat, more: nat)
    returns (fuel: nat)
    requires s.Object? && ProjectChildren(s, comps, stack, own) == Done(Object(values)) && c.Object?
    requires c == if IsNullable(s) then AddNull(Object(values)) else Object(values)
    requires SameReference(s, c) && (ObjectLike(s) ==> Properties in c.fields || Entry(c, Type) == Some(Text("object")))
    requires Flattened(c, comps, stack, rank, pass, level, depth, n, more)
    ensures Finishes(s, comps, stack, rank, pass, level, depth, n, fuel)
  {
    hide SameReference, ObjectLike, Flattened, ProjectChildren, AddNull, IsNullable, Finishes;
    var enough := if own > more then own else more;
    ChildrenAreTheSame(s, comps, stack, own, enough);
    FlattenedLater(c, comps, stack, rank, pass, level, depth, n, more, enough);
    ObjectAssembles(s, c, comps, stack, rank, pass, level, depth, n, enough);
    fuel := enough + 1;
  }

  lemma FlattenedLater(c: Schema, comps: Components, stack: seq<string>, rank: Rank, pass: nat, level: nat, depth: nat, n: nat, fuel: nat, more: nat)
    requires c.Object? && Flattened(c, comps, stack, rank, pass, level, depth, n, fuel) && fuel <= more
    ensures Flattened(c, comps, stack, rank, pass, level, depth, n, more)
  {
    FlattenIsTheSame(c, comps, stack, fuel, more);
  }

  lemma FailedFinishes(s: Schema, comps: Components, stack: seq<string>, rank: Rank, pass: nat, level: nat, depth: nat, n: nat, own: nat)
    requires ProjectChildren(s, comps, stack, own).Failed?
    ensures Finishes(s, comps, stack, rank, pass, level, depth, n, own + 1)
  {
  }

  ghost predicate Ends(s: Schema, comps: Components, stack: seq<string>)
  {
    exists fuel: nat :: !Project(s, comps, stack, fuel).OutOfFuel?
  }

  /** Above every rank, every schema unfolds. */
  lemma {:induction false} EverythingUnfolds(s: Schema, comps: Components, rank: Rank, level: nat)
    requires forall name :: name in comps ==> Cost(rank, name) < level
    ensures Unfolds(s, comps, rank, level, 0)
  {
    match s
    case Array(items) =>
      forall i | 0 <= i < |items| ensures Unfolds(items[i], comps, rank, level, 0) { EverythingUnfolds(items[i], comps, rank, level); }
    case Object(fields) =>
      forall k | k in fields ensures Unfolds(fields[k], comps, rank, level, 0) { EverythingUnfolds(fields[k], comps, rank, level); }
    case _ =>
  }

  /** The projection of every schema, in whatever component it starts, ends for every set of ranked
      components: cyclic ones included, as long as no cycle leads through a list that hides a reference
      and is kept. */
  lemma ProjectionEnds(s: Schema, comps: Components, stack: seq<string>, rank: Rank)
    requires Ranked(comps, rank)
    ensures Ends(s, comps, stack)
  {
    var costs := map name | name in comps :: Cost(rank, name);
    var level := MaxOf(costs) + 1;
    forall name | name in comps ensures Cost(rank, name) < level {
      assert costs[name] <= MaxOf(costs);
    }
    EverythingUnfolds(s, comps, rank, level);
    HeightIsEnough(s);
    var fuel := Terminates(s, comps, stack, rank, 1, level, 0, Height(s));
    assert !Project(s, comps, stack, fuel).OutOfFuel?;
  }

  // ---------------------------------------------------------------- who is ranked

  /** No `allOf` list refers to a component. */
  ghost predicate Still(s: Schema)
  {
    match s
    case Array(items) => forall i :: 0 <= i < |items| ==> Still(items[i])
    case Object(fields) =>
      && (Entry(s, AllOf).Some? && fields[AllOf].Array? ==>
            forall i :: 0 <= i < |fields[AllOf].items| ==> Reference(fields[AllOf].items[i]).None?)
      && forall k :: k in fields ==> Still(fields[k])
    case _ => true
  }

  lemma {:induction false} StillUnfolds(s: Schema, comps: Components, rank: Rank, level: nat, depth: nat)
    requires Still(s)
    ensures Unfolds(s, comps, rank, level, depth)
  {
    match s
    case Array(items) =>
      forall i | 0 <= i < |items| ensures Unfolds(items[i], comps, rank, level, depth) { StillUnfolds(items[i], comps, rank, level, depth); }
    case Object(fields) =>
      forall k | k in fields ensures Unfolds(fields[k], comps, rank, level, Under(k, depth)) {
        StillUnfolds(fields[k], comps, rank, level, Under(k, depth));
      }
    case _ =>
  }

  /** No nullable object hides an `allOf` reference from flattening. */
  ghost predicate Calm(s: Schema)
  {
    match s
    case Array(items) => forall i :: 0 <= i < |items| ==> Calm(items[i])
    case Object(fields) =>
      && (IsNullable(s) && Hides(Entry(s, Type)) && Entry(s, AllOf).Some? && fields[AllOf].Array? ==>
            forall i :: 0 <= i < |fields[AllOf].items| ==> Reference(fields[AllOf].items[i]).None?)
      && forall k :: k in fields ==> Calm(fields[k])
    case _ => true
  }

  ghost predicate CalmComponents(comps: Components)
  {
    forall name :: name in comps ==> Calm(comps[name]) && Reference(comps[name]).None?
  }

  lemma {:induction false} CalmUnfolds(s: Schema, comps: Components, depth: nat)
    requires Calm(s)
    ensures Unfolds(s, comps, _ => 0, 0, depth)
  {
    match s
    case Array(items) => forall i | 0 <= i < |items| ensures Unfolds(items[i], comps, _ => 0, 0, depth) { CalmUnfolds(items[i], comps, depth); }
    case Object(fields) =>
      forall k | k in fields ensures Unfolds(fields[k], comps, _ => 0, 0, Under(k, depth)) { CalmUnfolds(fields[k], comps, Under(k, depth)); }
    case _ =>
  }

  /** If no component hides a reference, the projection of every schema ends, however the components refer
      to each other; and what a calm schema becomes holds nothing left to resolve. */
  lemma CalmProjectionEnds(s: Schema, comps: Components, stack: seq<string>)
    requires CalmComponents(comps)
    ensures Ends(s, comps, stack)
    ensures Calm(s) ==>
              exists fuel: nat :: !Project(s, comps, stack, fuel).OutOfFuel? &&
                (Project(s, comps, stack, fuel).Done? ==> Within(Project(s, comps, stack, fuel).value, comps, _ => 0, 0, 0))
  {
    forall name | name in comps ensures Unfolds(comps[name], comps, _ => 0, 0, 1) { CalmUnfolds(comps[name], comps, 1); }
    ProjectionEnds(s, comps, stack, _ => 0);
    if Calm(s) {
      CalmUnfolds(s, comps, 0);
      HeightIsEnough(s);
      var fuel := Terminates(s, comps, stack, _ => 0, 1, 0, 0, Height(s));
      assert Finishes(s, comps, stack, _ => 0, 1, 0, 0, Height(s), fuel);
    }
  }

  /** Every `allOf` list in the schema that refers to components refers to object schemas only, and its
      parts hold no further references. */
  ghost predicate Dissolving(s: Schema, comps: Components)
  {
    match s
    case Array(items) => forall i :: 0 <= i < |items| ==> Dissolving(items[i], comps)
    case Object(fields) =>
      && (AllOf in fields ==> Still(fields[AllOf]))
      && (AllOf in fields && fields[AllOf].Array? ==>
            || Dissolves(fields[AllOf].items, comps)
            || forall i :: 0 <= i < |fields[AllOf].items| ==> Reference(fields[AllOf].items[i]).None?)
      && forall k :: k in fields && k != AllOf ==> Dissolving(fields[k], comps)
    case _ => true
  }

  lemma {:induction false} DissolvingUnfolds(s: Schema, comps: Components)
    requires Dissolving(s, comps)
    ensures Unfolds(s, comps, _ => 1, 1, 1)
  {
    match s
    case Array(items) => forall i | 0 <= i < |items| ensures Unfolds(items[i], comps, _ => 1, 1, 1) { DissolvingUnfolds(items[i], comps); }
    case Object(fields) =>
      forall k | k in fields ensures Unfolds(fields[k], comps, _ => 1, 1, Under(k, 1)) {
        if k == AllOf { StillUnfolds(fields[k], comps, _ => 1, 1, 0); } else { DissolvingUnfolds(fields[k], comps); }
      }
    case _ =>
  }

  /** Cycles of any length and shape through object schemas do no harm, hidden or not: the lists that refer
      to them dissolve. */
  lemma ObjectCyclesEnd(s: Schema, comps: Components, stack: seq<string>)
    requires forall name :: name in comps ==> Dissolving(comps[name], comps) && Reference(comps[name]).None?
    ensures Ends(s, comps, stack)
  {
    forall name | name in comps ensures Unfolds(comps[name], comps, _ => 1, 1, 1) { DissolvingUnfolds(comps[name], comps); }
    ProjectionEnds(s, comps, stack, _ => 1);
  }

  /** An object schema with a nullable property of another kind, as generators write it. */
  function Containing(name: string, property: string): Schema
  {
    var other := Object(map[Nullable := Bool(true), AllOf := Array([Object(map[RefKey := Text(REF_PREFIX + name)])])]);
    Object(map[Type := Text("object"), Properties := Object(map[Other(property) := other])])
  }

  /** Two object schemas that contain each other are such components. */
  lemma MutualContainmentEnds(s: Schema, a: string, b: string, property: string, stack: seq<string>)
    ensures Ends(s, map[a := Containing(b, property), b := Containing(a, property)], stack)
  {
    var comps: Components := map[a := Containing(b, property), b := Containing(a, property)];
    ContainingDissolves(a, property, comps);
    ContainingDissolves(b, property, comps);
    ObjectCyclesEnd(s, comps, stack);
  }

  lemma ContainingDissolves(name: string, property: string, comps: Components)
    requires name in comps && ObjectLike(comps[name])
    ensures Dissolving(Containing(name, property), comps) && Reference(Containing(name, property)).None?
  {
    var part := Object(map[RefKey := Text(REF_PREFIX + name)]);
    assert (REF_PREFIX + name)[|REF_PREFIX|..] == name;
    assert Reference(part) == Some(name) && Still(part);
    var parts := [part];
    assert Dissolves(parts, comps) && Still(Array(parts));
    hide Dissolves, ObjectLike, Still;
    var other := Object(map[Nullable := Bool(true), AllOf := Array(parts)]);
    assert Dissolving(other, comps);
    assert Dissolving(Object(map[Other(property) := other]), comps);
  }
}

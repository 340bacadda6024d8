/** When the projection of a schema does not end (backend/src/rpc/schema.rs:293-396). A nullable object
    without a type of its own hides the references of its `allOf` list: its projection is an alternative
    around that list. If components that are no object schemas refer to each other in a cycle, through
    lists that hide the reference or are kept, projecting a list that holds one of them projects another
    one inside it, for ever, unless it fails. */
module SchemaDivergence {
  import opened Json
  import opened SchemaProjection
  import opened SchemaTermination

  function RefTo(name: string): Schema { Object(map[RefKey := Text(REF_PREFIX + name)]) }

  function AllOfOne(s: Schema): Schema { Object(map[AllOf := Array([s])]) }

  /** A list of parts, one of which refers to a name in `names`. */
  predicate RefersTo(allOf: Option<Schema>, names: set<string>)
  {
    allOf.Some? && allOf.value.Array? &&
    exists i :: 0 <= i < |allOf.value.items| && !IsNullable(allOf.value.items[i]) && RefersIn(allOf.value.items[i], names)
  }

  predicate RefersIn(part: Schema, names: set<string>) { Reference(part).Some? && Reference(part).value in names }

  /** Somewhere inside the schema, under no other `allOf` list, a list refers to a component in `names`. */
  ghost predicate LeadsTo(s: Schema, names: set<string>)
  {
    match s
    case Array(items) => exists i :: 0 <= i < |items| && LeadsTo(items[i], names)
    case Object(fields) =>
      || RefersTo(Entry(s, AllOf), names)
      || (AllOf !in fields && exists k :: k in fields && Kept(k) && k != Type && LeadsTo(fields[k], names))
    case _ => false
  }

  predicate Wrapped(s: Schema) { IsNullable(s) && Hides(Entry(s, Type)) }

  /** A component that is no object schema, however it is projected, if those in `names` are none. */
  predicate NoObjectSchema(s: Schema, names: set<string>)
  {
    s.Object? &&
    (|| Wrapped(s)
     || ((AllOf !in s.fields || RefersTo(Entry(s, AllOf), names)) &&
         Properties !in s.fields && Entry(s, Type) != Some(Text("object")) && Reference(s).None?))
  }

  /** Every component in `names` is no object schema and leads to one of them, whatever else it holds. */
  ghost predicate KeptCycle(comps: Components, names: set<string>)
  {
    forall n :: n in names ==> n in comps && NoObjectSchema(comps[n], names) && LeadsTo(comps[n], names)
  }

  // ---------------------------------------------------------------- what projection keeps

  lemma {:induction false} MergeAllKeepsKey(target: map<Key, Schema>, parts: seq<Schema>, k: Key)
    requires MergeAll(target, parts).Done? && k in target && k != Properties && k != Required
    ensures k in MergeAll(target, parts).value && MergeAll(target, parts).value[k] == target[k]
    decreases |parts|
  {
    if parts != [] { MergeAllKeepsKey(Merge(target, parts[0]).value, parts[1..], k); }
  }

  lemma {:induction false} MergeAllAddsNoNull(target: map<Key, Schema>, parts: seq<Schema>)
    requires MergeAll(target, parts).Done? && Nullable !in target && forall a :: a in parts ==> Entry(a, Nullable).None?
    ensures Nullable !in MergeAll(target, parts).value
    decreases |parts|
  {
    if parts != [] {
      assert parts[0] in parts;
      MergeAllAddsNoNull(Merge(target, parts[0]).value, parts[1..]);
    }
  }

  lemma SequenceItems(outcomes: seq<Outcome<Schema>>)
    requires Sequence(outcomes).Done?
    ensures |Sequence(outcomes).value| == |outcomes|
    ensures forall i :: 0 <= i < |outcomes| ==> outcomes[i] == Done(Sequence(outcomes).value[i])
  {
    SequenceMeans(outcomes);
    assert forall i :: 0 <= i < |outcomes| ==> outcomes[i] in outcomes;
  }

  /** The entries of an array, and the fields of an object, are projected one by one. */
  lemma ArrayItems(items: seq<Schema>, comps: Components, stack: seq<string>, fuel: nat) returns (values: seq<Schema>)
    requires Project(Array(items), comps, stack, fuel).Done?
    ensures fuel > 0 && Project(Array(items), comps, stack, fuel) == Done(Array(values)) && |values| == |items|
    ensures forall i :: 0 <= i < |items| ==> Project(items[i], comps, stack, fuel - 1) == Done(values[i])
  {
    var outcomes := seq(|items|, i requires 0 <= i < |items| => Project(items[i], comps, stack, fuel - 1));
    SequenceItems(outcomes);
    values := Sequence(outcomes).value;
    assert forall i :: 0 <= i < |items| ==> outcomes[i] == Project(items[i], comps, stack, fuel - 1);
  }

  lemma ObjectFields(s: Schema, comps: Components, stack: seq<string>, fuel: nat) returns (values: map<Key, Schema>)
    requires s.Object? && Project(s, comps, stack, fuel).Done?
    ensures fuel > 0 && values.Keys == set k | k in s.fields && Kept(k)
    ensures forall k :: k in values ==> Project(s.fields[k], comps, stack, fuel - 1) == Done(values[k])
    ensures Project(s, comps, stack, fuel) == Flatten(Made(s, values), comps, stack, fuel - 1)
    ensures Nullable !in Made(s, values).fields
  {
    hide Flatten, AddNull, IsNullable;
    assert ProjectChildren(s, comps, stack, fuel - 1).Done?;
    values := GatheredFields(s.fields, comps, stack, fuel - 1);
    MadeHasNoNull(s, values);
    hide ProjectChildren;
  }

  /** The object after its fields, with null made explicit. */
  function Made(s: Schema, values: map<Key, Schema>): (c: Schema)
    ensures c.Object?
  {
    if IsNullable(s) then AddNull(Object(values)) else Object(values)
  }

  lemma MadeOfPlain(s: Schema, values: map<Key, Schema>)
    requires s.Object? && !IsNullable(s)
    ensures Made(s, values) == Object(values)
  {
  }

  lemma MadeHasNoNull(s: Schema, values: map<Key, Schema>)
    requires Nullable !in values
    ensures Nullable !in Made(s, values).fields
  {
  }

  lemma GatheredFields(fields: map<Key, Schema>, comps: Components, stack: seq<string>, fuel: nat) returns (values: map<Key, Schema>)
    requires ProjectChildren(Object(fields), comps, stack, fuel).Done?
    ensures ProjectChildren(Object(fields), comps, stack, fuel) == Done(Object(values)) && values.Keys == set k | k in fields && Kept(k)
    ensures forall k :: k in values ==> Project(fields[k], comps, stack, fuel) == Done(values[k])
  {
    var outcomes := map k | k in fields && Kept(k) :: Project(fields[k], comps, stack, fuel);
    values := Gather(outcomes).value;
    hide Project;
    assert forall k :: k in outcomes ==> outcomes[k].Done?;
  }

  /** The parts of a list that is flattened are resolved one by one. */
  lemma FlattenedItems(fields: map<Key, Schema>, comps: Components, stack: seq<string>, fuel: nat) returns (values: seq<Schema>)
    requires Flatten(Object(fields), comps, stack, fuel).Done? && AllOf in fields && fields[AllOf].Array?
    ensures |values| == |fields[AllOf].items|
    ensures forall i :: 0 <= i < |values| ==> Resolve(fields[AllOf].items[i], comps, stack, fuel) == Done(values[i])
    ensures Flatten(Object(fields), comps, stack, fuel) == Reassemble(fields - {AllOf}, values)
  {
    var parts := fields[AllOf].items;
    var outcomes := seq(|parts|, i requires 0 <= i < |parts| => Resolve(parts[i], comps, stack, fuel));
    SequenceItems(outcomes);
    values := Sequence(outcomes).value;
    assert forall i :: 0 <= i < |parts| ==> outcomes[i] == Resolve(parts[i], comps, stack, fuel);
  }

  /** What is neither an array nor an object stays as it is, and nothing becomes a text that was none. */
  lemma ScalarStays(s: Schema, comps: Components, stack: seq<string>, fuel: nat)
    requires Project(s, comps, stack, fuel).Done?
    ensures var v := Project(s, comps, stack, fuel).value;
            && (s.Object? <==> v.Object?) && (s.Array? <==> v.Array?) && (!s.Object? && !s.Array? ==> v == s)
  {
    hide Project, Flatten, Made;
    if s.Object? {
      var values := ObjectFields(s, comps, stack, fuel);
      FlattenIsObject(Made(s, values).fields, comps, stack, fuel - 1);
    } else if s.Array? {
      var values := ArrayItems(s.items, comps, stack, fuel);
    } else {
      AtomStays(s, comps, stack, fuel);
    }
  }

  lemma AtomStays(s: Schema, comps: Components, stack: seq<string>, fuel: nat)
    requires !s.Object? && !s.Array?
    ensures Project(s, comps, stack, fuel) == if fuel == 0 then OutOfFuel else Done(s)
  {
    assert !IsNullable(s);
  }

  lemma FlattenIsObject(fields: map<Key, Schema>, comps: Components, stack: seq<string>, fuel: nat)
    requires Flatten(Object(fields), comps, stack, fuel).Done?
    ensures Flatten(Object(fields), comps, stack, fuel).value.Object?
  {
  }

  /** Projection leaves no `nullable`. */
  lemma {:induction false} NoNullLeft(s: Schema, comps: Components, stack: seq<string>, fuel: nat)
    requires Project(s, comps, stack, fuel).Done?
    ensures Entry(Project(s, comps, stack, fuel).value, Nullable).None?
    decreases fuel, 1
  {
    if s.Object? {
      hide Project, Flatten, Made;
      var values := ObjectFields(s, comps, stack, fuel);
      FlattenedHasNoNull(Made(s, values).fields, comps, stack, fuel - 1);
    } else {
      ScalarStays(s, comps, stack, fuel);
    }
  }

  lemma {:induction false} FlattenedHasNoNull(fields: map<Key, Schema>, comps: Components, stack: seq<string>, fuel: nat)
    requires Flatten(Object(fields), comps, stack, fuel).Done? && Nullable !in fields
    ensures Entry(Flatten(Object(fields), comps, stack, fuel).value, Nullable).None?
    decreases fuel, 3
  {
    if AllOf in fields && fields[AllOf].Array? {
      var values := FlattenedItems(fields, comps, stack, fuel);
      forall a | a in values ensures Entry(a, Nullable).None? {
        var i :| 0 <= i < |values| && values[i] == a;
        ResolvedHasNoNull(fields[AllOf].items[i], comps, stack, fuel);
      }
      if forall i :: 0 <= i < |values| ==> IsObjectSchema(values[i]) { MergeAllAddsNoNull(fields - {AllOf}, values); }
    }
  }

  lemma {:induction false} ResolvedHasNoNull(part: Schema, comps: Components, stack: seq<string>, fuel: nat)
    requires Resolve(part, comps, stack, fuel).Done?
    ensures Entry(Resolve(part, comps, stack, fuel).value, Nullable).None?
    decreases fuel, 2
  {
    if Reference(part).Some? {
      var name := Reference(part).value;
      NoNullLeft(comps[name], comps, stack + [name], fuel);
    } else {
      NoNullLeft(part, comps, stack, fuel);
    }
  }

  /** A reference stays a reference to the same component. */
  lemma ReferenceStays(s: Schema, comps: Components, stack: seq<string>, fuel: nat)
    requires Project(s, comps, stack, fuel).Done? && Reference(s).Some? && !IsNullable(s)
    ensures Reference(Project(s, comps, stack, fuel).value) == Reference(s)
  {
    hide Project, Flatten;
    var values := ObjectFields(s, comps, stack, fuel);
    ScalarStays(s.fields[RefKey], comps, stack, fuel - 1);
    assert RefKey in values && values[RefKey] == s.fields[RefKey];
    ReferenceIsFlattened(values, comps, stack, fuel - 1);
  }

  lemma ReferenceIsFlattened(values: map<Key, Schema>, comps: Components, stack: seq<string>, fuel: nat)
    requires Flatten(Object(values), comps, stack, fuel).Done? && RefKey in values
    ensures Reference(Flatten(Object(values), comps, stack, fuel).value) == Reference(Object(values))
  {
    if AllOf in values && values[AllOf].Array? {
      var parts := FlattenedItems(values, comps, stack, fuel);
      hide Flatten;
      if forall i :: 0 <= i < |parts| ==> IsObjectSchema(parts[i]) { MergeAllKeepsKey(values - {AllOf}, parts, RefKey); }
    }
  }

  // ---------------------------------------------------------------- a cycle of hidden references

  /** A projected schema in which a reference to a member of the cycle is still to be resolved. */
  ghost predicate Shows(x: Schema, names: set<string>)
  {
    match x
    case Array(items) => exists i :: 0 <= i < |items| && Shows(items[i], names)
    case Object(fields) =>
      && Nullable !in fields
      && (|| RefersTo(Entry(x, AllOf), names)
          || (AllOf !in fields && exists k :: k in fields && Kept(k) && Shows(fields[k], names)))
    case _ => false
  }

  /** It is no reference, and projecting it once more merges nothing into it. */
  predicate Rooted(x: Schema) { Reference(x).None? && (x.Object? ==> Nullable !in x.fields && AllOf !in x.fields) }

  /** A projected schema in which such a schema is a part of an `allOf` list. */
  ghost predicate Wraps(x: Schema, names: set<string>)
  {
    match x
    case Array(items) => exists i :: 0 <= i < |items| && Wraps(items[i], names)
    case Object(fields) =>
      && Nullable !in fields
      && (|| (AllOf in fields && fields[AllOf].Array? &&
              exists i :: 0 <= i < |fields[AllOf].items| &&
                ((Rooted(fields[AllOf].items[i]) && Shows(fields[AllOf].items[i], names)) || Wraps(fields[AllOf].items[i], names)))
          || (AllOf !in fields && exists k :: k in fields && Kept(k) && Wraps(fields[k], names)))
    case _ => false
  }

  /** As a part of a list, it makes the list impossible to project. */
  ghost predicate Held(x: Schema, names: set<string>) { (Rooted(x) && Shows(x, names)) || Wraps(x, names) }

  ghost predicate Holds(allOf: Option<Schema>, names: set<string>)
  {
    allOf.Some? && allOf.value.Array? && exists i :: 0 <= i < |allOf.value.items| && Held(allOf.value.items[i], names)
  }

  lemma HoldingWraps(x: Schema, names: set<string>)
    requires x.Object? && Nullable !in x.fields
    ensures Wraps(x, names) <==>
            Holds(Entry(x, AllOf), names) || (AllOf !in x.fields && exists k :: k in x.fields && Kept(k) && Wraps(x.fields[k], names))
  {
  }

  /** A reference to a member is still to be resolved, or has been. */
  ghost predicate Live(x: Schema, names: set<string>) { Shows(x, names) || Wraps(x, names) }

  /** An array, or an object without a list, is live if an entry is. */
  lemma LiveInside(x: Schema, names: set<string>)
    ensures x.Array? && (exists i :: 0 <= i < |x.items| && Live(x.items[i], names)) ==> Live(x, names)
    ensures x.Object? && Nullable !in x.fields && AllOf !in x.fields && (exists k :: k in x.fields && Kept(k) && Live(x.fields[k], names)) ==> Live(x, names)
  {
  }

  /** A list that refers to a member still does after its entries have been projected. */
  lemma StillRefers(items: seq<Schema>, values: seq<Schema>, names: set<string>, comps: Components, stack: seq<string>, fuel: nat)
    requires RefersTo(Some(Array(items)), names) && |values| == |items|
    requires forall i :: 0 <= i < |items| ==> Project(items[i], comps, stack, fuel) == Done(values[i])
    ensures RefersTo(Some(Array(values)), names)
  {
    var i :| 0 <= i < |items| && !IsNullable(items[i]) && RefersIn(items[i], names);
    ReferenceStays(items[i], comps, stack, fuel);
    NoNullLeft(items[i], comps, stack, fuel);
    assert RefersIn(values[i], names) && !IsNullable(values[i]);
  }

  lemma ListOf(c: Schema, names: set<string>) returns (items: seq<Schema>)
    requires c.Object? && RefersTo(Entry(c, AllOf), names)
    ensures AllOf in c.fields && c.fields[AllOf] == Array(items) && RefersTo(Some(Array(items)), names)
  {
    items := c.fields[AllOf].items;
  }

  /** An object without an `allOf` list is projected field by field. */
  lemma PlainFields(s: Schema, comps: Components, stack: seq<string>, fuel: nat) returns (values: map<Key, Schema>)
    requires s.Object? && Nullable !in s.fields && AllOf !in s.fields && Project(s, comps, stack, fuel).Done?
    ensures fuel > 0 && values.Keys == set k | k in s.fields && Kept(k)
    ensures forall k :: k in values ==> Project(s.fields[k], comps, stack, fuel - 1) == Done(values[k])
    ensures Project(s, comps, stack, fuel) == Done(Object(values))
  {
    hide Project, Flatten, Made, IsNullable;
    values := ObjectFields(s, comps, stack, fuel);
    PlainIfNoNull(s);
    MadeOfPlain(s, values);
    FlatWithoutList(values, comps, stack, fuel - 1);
  }

  lemma FlatWithoutList(fields: map<Key, Schema>, comps: Components, stack: seq<string>, fuel: nat)
    requires AllOf !in fields
    ensures Flatten(Object(fields), comps, stack, fuel) == Done(Object(fields))
  {
    assert fields - {AllOf} == fields;
  }

  lemma PlainIfNoNull(c: Schema)
    requires c.Object? && Nullable !in c.fields
    ensures !IsNullable(c)
  {
  }

  lemma LiveInAlternative(c: Schema, names: set<string>)
    requires Live(c, names)
    ensures Live(Alternative(c), names)
  {
    var items := [c, NULL_TYPE];
    assert Live(items[0], names);
    hide Live;
    LiveInside(Array(items), names);
    assert Alternative(c).fields[AnyOf] == Array(items);
    LiveInside(Alternative(c), names);
  }

  /** The object with null made explicit: an alternative around it, or the object but for its type. */
  lemma MadeFrom(s: Schema, values: map<Key, Schema>)
    requires s.Object? && (Hides(Entry(Object(values), Type)) <==> Hides(Entry(s, Type)))
    ensures Wrapped(s) ==> Made(s, values) == Alternative(Object(values))
    ensures !Wrapped(s) ==>
              && Made(s, values).fields - {Type} == values - {Type}
              && (Made(s, values) == Object(values) || (Entry(Made(s, values), Type).Some? && !Entry(Made(s, values), Type).value.Text?))
  {
  }

  lemma TypeStillHides(s: Schema, values: map<Key, Schema>, comps: Components, stack: seq<string>, fuel: nat)
    requires s.Object? && values.Keys == set k | k in s.fields && Kept(k)
    requires forall k :: k in values ==> Project(s.fields[k], comps, stack, fuel) == Done(values[k])
    ensures Hides(Entry(Object(values), Type)) <==> Hides(Entry(s, Type))
    ensures Entry(Object(values), Type) == Some(Text("object")) ==> Entry(s, Type) == Some(Text("object"))
    ensures Reference(s).None? ==> Reference(Object(values)).None?
  {
    hide Project;
    if Type in values { ScalarStays(s.fields[Type], comps, stack, fuel); }
    if RefKey in values { ScalarStays(s.fields[RefKey], comps, stack, fuel); }
  }

  lemma FieldLives(s: Schema, values: map<Key, Schema>, k: Key, names: set<string>)
    requires s.Object? && (Hides(Entry(Object(values), Type)) <==> Hides(Entry(s, Type)))
    requires Nullable !in values && AllOf !in values && k in values && Kept(k) && k != Type && Live(values[k], names)
    ensures Live(Made(s, values), names) && AllOf !in Made(s, values).fields
  {
    hide Live;
    LiveInside(Object(values), names);
    MadeFrom(s, values);
    if Wrapped(s) {
      LiveInAlternative(Object(values), names);
    } else {
      var fields := Made(s, values).fields;
      assert k in fields - {Type} && (fields - {Type})[k] == values[k];
      assert AllOf !in fields by { assert AllOf !in fields - {Type}; }
      assert Nullable !in fields by { assert Nullable !in fields - {Type}; }
      hide Made;
      LiveInside(Object(fields), names);
    }
  }

  /** The list of an object after its entries have been projected. */
  lemma ListStillRefers(s: Schema, values: map<Key, Schema>, names: set<string>, comps: Components, stack: seq<string>, fuel: nat)
    requires s.Object? && RefersTo(Entry(s, AllOf), names) && AllOf in values
    requires Project(s.fields[AllOf], comps, stack, fuel) == Done(values[AllOf])
    ensures RefersTo(Entry(Object(values), AllOf), names)
  {
    hide Project, RefersTo;
    var items := ListOf(s, names);
    var parts := ArrayItems(items, comps, stack, fuel);
    StillRefers(items, parts, names, comps, stack, fuel - 1);
  }

  lemma ShownInAlternative(values: map<Key, Schema>, names: set<string>)
    requires Nullable !in values && RefersTo(Entry(Object(values), AllOf), names)
    ensures Live(Alternative(Object(values)), names)
  {
    assert Shows(Object(values), names);
    LiveInAlternative(Object(values), names);
  }

  /** What leads to a member is live once it has been projected. */
  lemma {:induction false} LeadingLives(s: Schema, names: set<string>, comps: Components, stack: seq<string>, fuel: nat)
    requires KeptCycle(comps, names) && LeadsTo(s, names) && Project(s, comps, stack, fuel).Done?
    ensures Live(Project(s, comps, stack, fuel).value, names)
    ensures s.Object? && !Wrapped(s) && RefersTo(Entry(s, AllOf), names) ==> KeptList(s, Project(s, comps, stack, fuel).value, names)
    decreases fuel, 1
  {
    hide Project, Flatten, Made, RefersTo, Live, Wrapped, KeptCycle, KeptList;
    if s.Array? {
      var values := ArrayItems(s.items, comps, stack, fuel);
      var i :| 0 <= i < |s.items| && LeadsTo(s.items[i], names);
      LeadingLives(s.items[i], names, comps, stack, fuel - 1);
      LiveInside(Array(values), names);
    } else {
      var values := ObjectFields(s, comps, stack, fuel);
      TypeStillHides(s, values, comps, stack, fuel - 1);
      MadeFrom(s, values);
      if RefersTo(Entry(s, AllOf), names) {
        ListNamed(s, names);
        ListStillRefers(s, values, names, comps, stack, fuel - 1);
        if Wrapped(s) {
          ShownInAlternative(values, names);
          FlatWithoutList(Alternative(Object(values)).fields, comps, stack, fuel - 1);
        } else {
          PlainListIsKept(s, values, names, comps, stack, fuel - 1);
        }
      } else {
        var k :| k in s.fields && Kept(k) && k != Type && LeadsTo(s.fields[k], names);
        LeadingLives(s.fields[k], names, comps, stack, fuel - 1);
        FieldLives(s, values, k, names);
        FlatWithoutList(Made(s, values).fields, comps, stack, fuel - 1);
      }
    }
  }

  lemma ListNamed(s: Schema, names: set<string>)
    requires RefersTo(Entry(s, AllOf), names)
    ensures s.Object? && AllOf in s.fields
  {
  }

  /** The object as it was but for its type, with a list that holds a member. */
  ghost predicate KeptList(s: Schema, o: Schema, names: set<string>)
  {
    && o.Object? && Nullable !in o.fields && Holds(Entry(o, AllOf), names)
    && (s.Object? && NoObjectSchema(s, names) ==> !IsObjectSchema(o))
  }

  /** A list that refers to a member and is not hidden is kept, because the member is no object schema. */
  lemma {:induction false} PlainListIsKept(s: Schema, values: map<Key, Schema>, names: set<string>, comps: Components, stack: seq<string>, fuel: nat)
    requires KeptCycle(comps, names) && s.Object? && !Wrapped(s) && Nullable !in Made(s, values).fields
    requires values.Keys == set k | k in s.fields && Kept(k)
    requires Hides(Entry(Object(values), Type)) <==> Hides(Entry(s, Type))
    requires Entry(Object(values), Type) == Some(Text("object")) ==> Entry(s, Type) == Some(Text("object"))
    requires RefersTo(Entry(Object(values), AllOf), names) && Flatten(Made(s, values), comps, stack, fuel).Done?
    ensures var o := Flatten(Made(s, values), comps, stack, fuel).value; KeptList(s, o, names) && Live(o, names)
    decreases fuel, 4
  {
    MadeFrom(s, values);
    var fields := Made(s, values).fields;
    assert AllOf in values && (values - {Type})[AllOf] == (fields - {Type})[AllOf] by { ListNamed(Object(values), names); }
    hide Made, Flatten, KeptCycle, RefersTo, Holds, Wrapped, NoObjectSchema;
    var parts := ListOf(Object(values), names);
    var flattened := FlattenedItems(fields, comps, stack, fuel);
    var i := ResolvedListHolds(parts, flattened, names, comps, stack, fuel);
    ListIsKept(fields - {AllOf}, flattened, i);
    var o := Object((fields - {AllOf})[AllOf := Array(flattened)]);
    HoldingWraps(o, names);
    KeptIsNoObject(s, values, flattened, names);
  }

  lemma KeptIsNoObject(s: Schema, values: map<Key, Schema>, flattened: seq<Schema>, names: set<string>)
    requires s.Object? && !Wrapped(s) && values.Keys == set k | k in s.fields && Kept(k)
    requires Hides(Entry(Object(values), Type)) <==> Hides(Entry(s, Type))
    requires Entry(Object(values), Type) == Some(Text("object")) ==> Entry(s, Type) == Some(Text("object"))
    ensures NoObjectSchema(s, names) ==> !IsObjectSchema(Object((Made(s, values).fields - {AllOf})[AllOf := Array(flattened)]))
  {
    MadeFrom(s, values);
    var fields := Made(s, values).fields;
    assert Properties in fields <==> Properties in fields - {Type};
    assert Properties in values <==> Properties in values - {Type};
  }

  /** What a member of the cycle becomes. */
  lemma {:induction false} MemberIsHeld(s: Schema, names: set<string>, comps: Components, stack: seq<string>, fuel: nat)
    requires KeptCycle(comps, names) && NoObjectSchema(s, names) && LeadsTo(s, names) && Project(s, comps, stack, fuel).Done?
    ensures var o := Project(s, comps, stack, fuel).value; Held(o, names) && !IsObjectSchema(o)
    decreases fuel, 2
  {
    LeadingLives(s, names, comps, stack, fuel);
    hide Project, Flatten, LeadsTo, Shows, Made, RefersTo, KeptCycle, Wraps;
    if Wrapped(s) || AllOf !in s.fields {
      var values := ObjectFields(s, comps, stack, fuel);
      TypeStillHides(s, values, comps, stack, fuel - 1);
      MadeFrom(s, values);
      MadeIsRooted(s, values, names);
      FlatWithoutList(Made(s, values).fields, comps, stack, fuel - 1);
    } else {
      HoldingWraps(Project(s, comps, stack, fuel).value, names);
    }
  }

  lemma MadeIsRooted(s: Schema, values: map<Key, Schema>, names: set<string>)
    requires NoObjectSchema(s, names) && values.Keys == set k | k in s.fields && Kept(k)
    requires Wrapped(s) || AllOf !in s.fields
    requires Hides(Entry(Object(values), Type)) <==> Hides(Entry(s, Type))
    requires Entry(Object(values), Type) == Some(Text("object")) ==> Entry(s, Type) == Some(Text("object"))
    requires Reference(s).None? ==> Reference(Object(values)).None?
    ensures Rooted(Made(s, values)) && !IsObjectSchema(Made(s, values))
  {
    MadeFrom(s, values);
    var fields := Made(s, values).fields;
    if !Wrapped(s) {
      assert forall k :: k != Type ==> (k in fields <==> k in fields - {Type}) && (k in values <==> k in values - {Type});
      assert RefKey in fields ==> (fields - {Type})[RefKey] == (values - {Type})[RefKey];
      assert Reference(Made(s, values)) == Reference(Object(values));
    }
  }

  /** It stays so when it is projected once more. */
  lemma RootedStays(x: Schema, comps: Components, stack: seq<string>, fuel: nat)
    requires Rooted(x) && Project(x, comps, stack, fuel).Done?
    ensures Reference(Project(x, comps, stack, fuel).value).None?
  {
    hide Project;
    if x.Object? {
      var values := PlainFields(x, comps, stack, fuel);
      TypeStillHides(x, values, comps, stack, fuel - 1);
    } else {
      ScalarStays(x, comps, stack, fuel);
    }
  }

  /** Projecting what shows a reference resolves it to another member. */
  lemma {:induction false} ShownWraps(x: Schema, names: set<string>, comps: Components, stack: seq<string>, fuel: nat)
    requires KeptCycle(comps, names) && Shows(x, names) && Project(x, comps, stack, fuel).Done?
    ensures Wraps(Project(x, comps, stack, fuel).value, names)
    decreases fuel
  {
    hide Project, KeptCycle, RefersTo, Holds;
    if x.Array? {
      var values := ArrayItems(x.items, comps, stack, fuel);
      var i :| 0 <= i < |x.items| && Shows(x.items[i], names);
      ShownWraps(x.items[i], names, comps, stack, fuel - 1);
      assert Wraps(values[i], names);
    } else if RefersTo(Entry(x, AllOf), names) {
      ListHolds(x, names, comps, stack, fuel);
      HoldingWraps(Project(x, comps, stack, fuel).value, names);
    } else {
      var values := PlainFields(x, comps, stack, fuel);
      var k :| k in x.fields && Kept(k) && Shows(x.fields[k], names);
      ShownWraps(x.fields[k], names, comps, stack, fuel - 1);
      assert Wraps(values[k], names);
      HoldingWraps(Object(values), names);
    }
  }

  lemma ListHolds(c: Schema, names: set<string>, comps: Components, stack: seq<string>, fuel: nat)
    requires KeptCycle(comps, names) && c.Object? && Nullable !in c.fields && RefersTo(Entry(c, AllOf), names)
    requires Project(c, comps, stack, fuel).Done?
    ensures var after := Project(c, comps, stack, fuel).value;
            after.Object? && Nullable !in after.fields && Holds(Entry(after, AllOf), names)
  {
    hide Project, Flatten, Resolve, Reassemble, Made, IsNullable, RefersTo, KeptCycle, Holds, Shows, Rooted;
    PlainIfNoNull(c);
    NoNullLeft(c, comps, stack, fuel);
    var values := ObjectFields(c, comps, stack, fuel);
    MadeOfPlain(c, values);
    var items := ListOf(c, names);
    var parts := ArrayItems(items, comps, stack, fuel - 1);
    StillRefers(items, parts, names, comps, stack, fuel - 2);
    assert values[AllOf] == Array(parts);
    var flattened := FlattenedItems(values, comps, stack, fuel - 1);
    var i := ResolvedListHolds(parts, flattened, names, comps, stack, fuel - 1);
    ListIsKept(values - {AllOf}, flattened, i);
  }

  lemma ListIsKept(rest: map<Key, Schema>, flattened: seq<Schema>, i: nat)
    requires i < |flattened| && !IsObjectSchema(flattened[i])
    ensures Reassemble(rest, flattened) == Done(Object(rest[AllOf := Array(flattened)]))
  {
  }

  /** A reference to a member is resolved to what the member has become. */
  lemma {:induction false} ResolvedListHolds(parts: seq<Schema>, flattened: seq<Schema>, names: set<string>, comps: Components, stack: seq<string>, fuel: nat)
    returns (i: nat)
    requires KeptCycle(comps, names) && RefersTo(Some(Array(parts)), names) && |flattened| == |parts|
    requires forall i :: 0 <= i < |parts| ==> Resolve(parts[i], comps, stack, fuel) == Done(flattened[i])
    ensures i < |flattened| && !IsObjectSchema(flattened[i]) && Holds(Some(Array(flattened)), names)
    decreases fuel, 3
  {
    hide Project, LeadsTo, NoObjectSchema, Held, IsObjectSchema;
    i :| 0 <= i < |parts| && !IsNullable(parts[i]) && RefersIn(parts[i], names);
    var name := Reference(parts[i]).value;
    assert name in names && name in comps;
    assert Resolve(parts[i], comps, stack, fuel) == Project(comps[name], comps, stack + [name], fuel);
    MemberIsHeld(comps[name], names, comps, stack + [name], fuel);
    assert Held(flattened[i], names);
  }

  /** What wraps such a schema is never projected: the schema would first have to be projected to one
      that wraps another one, and that one projected in turn. */
  lemma {:induction false} WrappedNeverProjects(x: Schema, names: set<string>, comps: Components, stack: seq<string>, fuel: nat)
    requires KeptCycle(comps, names) && Wraps(x, names)
    ensures !Project(x, comps, stack, fuel).Done?
    decreases fuel, 1
  {
    hide Project, KeptCycle, Holds;
    if Project(x, comps, stack, fuel).Done? {
      if x.Array? {
        var values := ArrayItems(x.items, comps, stack, fuel);
        var i :| 0 <= i < |x.items| && Wraps(x.items[i], names);
        WrappedNeverProjects(x.items[i], names, comps, stack, fuel - 1);
      } else if Holds(Entry(x, AllOf), names) {
        HoldingNeverProjects(x, names, comps, stack, fuel);
      } else {
        HoldingWraps(x, names);
        var values := PlainFields(x, comps, stack, fuel);
        var k :| k in x.fields && Kept(k) && Wraps(x.fields[k], names);
        assert k in values;
        WrappedNeverProjects(x.fields[k], names, comps, stack, fuel - 1);
      }
    }
  }

  lemma HeldPart(c: Schema, names: set<string>) returns (items: seq<Schema>, i: nat)
    requires c.Object? && Holds(Entry(c, AllOf), names)
    ensures AllOf in c.fields && c.fields[AllOf] == Array(items) && i < |items| && Held(items[i], names)
  {
    items := c.fields[AllOf].items;
    i :| 0 <= i < |items| && Held(items[i], names);
  }

  lemma {:induction false} HoldingNeverProjects(c: Schema, names: set<string>, comps: Components, stack: seq<string>, fuel: nat)
    requires KeptCycle(comps, names) && c.Object? && Nullable !in c.fields && Holds(Entry(c, AllOf), names)
    ensures !Project(c, comps, stack, fuel).Done?
    decreases fuel, 0
  {
    hide Project, Flatten, Wraps, Shows, Rooted, KeptCycle, Made, Reassemble, Resolve, IsNullable, Holds;
    if Project(c, comps, stack, fuel).Done? {
      var values := ObjectFields(c, comps, stack, fuel);
      PlainIfNoNull(c);
      MadeOfPlain(c, values);
      var items, i := HeldPart(c, names);
      var parts := ArrayItems(items, comps, stack, fuel - 1);
      if Wraps(items[i], names) {
        WrappedNeverProjects(items[i], names, comps, stack, fuel - 2);
      }
      ShownWraps(items[i], names, comps, stack, fuel - 2);
      RootedStays(items[i], comps, stack, fuel - 2);
      assert values[AllOf] == Array(parts);
      var flattened := FlattenedItems(values, comps, stack, fuel - 1);
      PartIsProjected(parts[i], comps, stack, fuel - 1);
      WrappedNeverProjects(parts[i], names, comps, stack, fuel - 1);
    }
  }

  /** For every set of components, a cycle of components that are no object schemas, each with a list that
      refers to the next one, hidden or not, makes a schema that is never projected: with any depth of
      calls it runs out of it or fails. */
  lemma KeptCycleNeverProjects(comps: Components, names: set<string>, name: string, stack: seq<string>, fuel: nat)
    requires KeptCycle(comps, names) && name in names
    ensures !Project(AllOfOne(AllOfOne(RefTo(name))), comps, stack, fuel).Done?
  {
    hide Project, Flatten, KeptCycle, Holds, Resolve, Reassemble, Reference, AllOfOne, RefTo, IsNullable;
    var inner := AllOfOne(RefTo(name));
    if Project(AllOfOne(inner), comps, stack, fuel).Done? {
      var part, flattened := OnePart(inner, comps, stack, fuel);
      PartIsProjected(part, comps, stack, fuel - 1);
      OneReference(comps, names, name, stack, fuel - 2);
      HoldingNeverProjects(part, names, comps, stack, fuel - 1);
    }
  }

  /** If it cannot fail, its projection does not end. */
  lemma KeptCycleDiverges(comps: Components, names: set<string>, name: string, stack: seq<string>)
    requires KeptCycle(comps, names) && name in names
    requires forall fuel: nat :: !Project(AllOfOne(AllOfOne(RefTo(name))), comps, stack, fuel).Failed?
    ensures !Ends(AllOfOne(AllOfOne(RefTo(name))), comps, stack)
  {
    hide Project, KeptCycle, AllOfOne, RefTo;
    forall fuel: nat ensures Project(AllOfOne(AllOfOne(RefTo(name))), comps, stack, fuel).OutOfFuel? {
      KeptCycleNeverProjects(comps, names, name, stack, fuel);
    }
  }

  lemma PartIsProjected(part: Schema, comps: Components, stack: seq<string>, fuel: nat)
    ensures Reference(part).None? ==> Resolve(part, comps, stack, fuel) == Project(part, comps, stack, fuel)
  {
  }

  /** A list of one part: the part is projected, and what it becomes is resolved. */
  lemma OnePart(s: Schema, comps: Components, stack: seq<string>, fuel: nat) returns (part: Schema, flattened: Schema)
    requires Project(AllOfOne(s), comps, stack, fuel).Done?
    ensures fuel > 1 && Project(s, comps, stack, fuel - 2) == Done(part) && Resolve(part, comps, stack, fuel - 1) == Done(flattened)
    ensures Project(AllOfOne(s), comps, stack, fuel) == Reassemble(map[], [flattened])
  {
    hide Project, Flatten, Reassemble;
    var values := ObjectFields(AllOfOne(s), comps, stack, fuel);
    assert AllOf in values && AllOfOne(s).fields[AllOf] == Array([s]);
    var parts := ArrayItems([s], comps, stack, fuel - 1);
    assert [s][0] == s;
    part := parts[0];
    assert values == map[AllOf := Array(parts)] && Made(AllOfOne(s), values) == Object(values);
    var results := FlattenedItems(values, comps, stack, fuel - 1);
    flattened := results[0];
    assert results == [flattened] && values - {AllOf} == map[];
  }

  lemma OneReference(comps: Components, names: set<string>, name: string, stack: seq<string>, fuel: nat)
    requires KeptCycle(comps, names) && name in names && Project(AllOfOne(RefTo(name)), comps, stack, fuel).Done?
    ensures var y := Project(AllOfOne(RefTo(name)), comps, stack, fuel).value;
            y.Object? && Nullable !in y.fields && Reference(y).None? && Holds(Entry(y, AllOf), names)
  {
    hide Project, KeptCycle, Held;
    var part, flattened := OnePart(RefTo(name), comps, stack, fuel);
    RefYields(name, comps, stack, fuel - 2);
    assert RefersIn(part, names) && !IsNullable(part);
    assert RefersTo(Some(Array([part])), names) by { assert [part][0] == part; }
    hide RefersTo;
    var i := ResolvedListHolds([part], [flattened], names, comps, stack, fuel - 1);
    ListIsKept(map[], [flattened], i);
  }

  // ---------------------------------------------------------------- when nothing fails

  /** A nullable reference, as generators write it. */
  function Alias(name: string): Schema { Object(map[Nullable := Bool(true), AllOf := Array([RefTo(name)])]) }

  function AliasTarget(s: Schema): Option<string>
  {
    match Entry(s, AllOf)
    case Some(Array(items)) =>
      if |items| == 1 && Reference(items[0]).Some? && s == Alias(Reference(items[0]).value) then Reference(items[0]) else None
    case _ => None
  }

  /** Every member is an alias of another one. */
  predicate AliasCycle(comps: Components, names: set<string>)
  {
    forall n :: n in names ==> n in comps && AliasTarget(comps[n]).Some? && AliasTarget(comps[n]).value in names
  }

  lemma AliasCyclesHide(comps: Components, names: set<string>)
    requires AliasCycle(comps, names)
    ensures KeptCycle(comps, names)
  {
    forall n | n in names ensures NoObjectSchema(comps[n], names) && LeadsTo(comps[n], names) {
      AliasHides(AliasTarget(comps[n]).value, names);
    }
  }

  lemma AliasHides(target: string, names: set<string>)
    requires target in names
    ensures NoObjectSchema(Alias(target), names) && LeadsTo(Alias(target), names)
  {
    assert (REF_PREFIX + target)[|REF_PREFIX|..] == target;
    var items := [RefTo(target)];
    assert Alias(target).fields[AllOf] == Array(items);
    assert RefersIn(items[0], names) && !IsNullable(items[0]);
  }

  /** A cycle of one nullable reference and one that is kept as it is. */
  lemma MixedCycleNeverProjects(a: string, b: string, stack: seq<string>, fuel: nat)
    ensures !Project(AllOfOne(AllOfOne(RefTo(a))), map[a := Alias(b), b := AllOfOne(RefTo(a))], stack, fuel).Done?
  {
    AliasHides(b, {a, b});
    AllOfOneLeads(a, {a, b});
    KeptCycleNeverProjects(map[a := Alias(b), b := AllOfOne(RefTo(a))], {a, b}, a, stack, fuel);
  }

  lemma AllOfOneLeads(target: string, names: set<string>)
    requires target in names
    ensures NoObjectSchema(AllOfOne(RefTo(target)), names) && LeadsTo(AllOfOne(RefTo(target)), names)
  {
    assert (REF_PREFIX + target)[|REF_PREFIX|..] == target;
    var items := [RefTo(target)];
    assert AllOfOne(RefTo(target)).fields[AllOf] == Array(items);
    assert RefersIn(items[0], names) && !IsNullable(items[0]);
  }

  /** Nothing here is an object schema or nullable, and every reference is to a member. */
  ghost predicate Safe(s: Schema, names: set<string>)
  {
    match s
    case Array(items) => forall i :: 0 <= i < |items| ==> Safe(items[i], names)
    case Object(fields) =>
      && Nullable !in fields && !IsObjectSchema(s) && (Reference(s).Some? ==> Reference(s).value in names)
      && forall k :: k in fields ==> Safe(fields[k], names)
    case _ => true
  }

  ghost predicate SafeOutcome(r: Outcome<Schema>, names: set<string>)
  {
    !r.Failed? && (r.Done? ==> Safe(r.value, names))
  }

  /** The outcome is `v` unless the fuel runs out first. */
  ghost predicate Yields(r: Outcome<Schema>, v: Schema) { r.OutOfFuel? || r == Done(v) }

  lemma ScalarYields(s: Schema, comps: Components, stack: seq<string>, fuel: nat)
    requires !s.Object? && !s.Array?
    ensures Yields(Project(s, comps, stack, fuel), s)
  {
  }

  lemma AllDone(outcomes: seq<Outcome<Schema>>, values: seq<Schema>)
    requires |outcomes| == |values| && forall i :: 0 <= i < |values| ==> outcomes[i] == Done(values[i])
    ensures Sequence(outcomes) == Done(values)
  {
    SequenceMeans(outcomes);
    assert forall i :: 0 <= i < |values| ==> Sequence(outcomes).value[i] == values[i];
    assert Sequence(outcomes).value == values;
  }

  lemma GatherOfOne(outcomes: map<Key, Outcome<Schema>>, k: Key, o: Outcome<Schema>)
    requires outcomes.Keys == {k} && outcomes[k] == o
    ensures o.OutOfFuel? ==> Gather(outcomes).OutOfFuel?
    ensures o.Done? ==> Gather(outcomes) == Done(map[k := o.value])
  {
    assert k in outcomes;
    assert forall j :: j in outcomes ==> j == k;
    if o.Done? { assert (map j | j in outcomes :: outcomes[j].value) == map[k := o.value]; }
  }

  lemma ArrayYields(items: seq<Schema>, values: seq<Schema>, comps: Components, stack: seq<string>, fuel: nat)
    requires |values| == |items| && forall i :: 0 <= i < |items| ==> Yields(Project(items[i], comps, stack, fuel), values[i])
    ensures Yields(Project(Array(items), comps, stack, fuel + 1), Array(values))
  {
    var outcomes := seq(|items|, i requires 0 <= i < |items| => Project(items[i], comps, stack, fuel));
    if OutOfFuel !in outcomes {
      assert forall i :: 0 <= i < |items| ==> outcomes[i] in outcomes && outcomes[i] == Done(values[i]);
      AllDone(outcomes, values);
    }
  }

  /** An object with a single field that means nothing to flattening. */
  lemma FieldYields(k: Key, s: Schema, v: Schema, comps: Components, stack: seq<string>, fuel: nat)
    requires Kept(k) && k != AllOf && Yields(Project(s, comps, stack, fuel), v)
    ensures Yields(Project(Object(map[k := s]), comps, stack, fuel + 1), Object(map[k := v]))
  {
    var fields: map<Key, Schema> := map[k := s];
    var outcomes := map j | j in fields && Kept(j) :: Project(fields[j], comps, stack, fuel);
    assert outcomes.Keys == {k};
    GatherOfOne(outcomes, k, Project(s, comps, stack, fuel));
    if !outcomes[k].OutOfFuel? {
      assert ProjectChildren(Object(fields), comps, stack, fuel) == Done(Object(map[k := v]));
      hide ProjectChildren, Gather;
      assert Entry(Object(map[k := v]), AllOf).None?;
      assert map[k := v] - {AllOf} == map[k := v];
      assert !IsNullable(Object(fields));
    }
  }

  lemma RefYields(name: string, comps: Components, stack: seq<string>, fuel: nat)
    ensures Yields(Project(RefTo(name), comps, stack, fuel), RefTo(name))
    ensures Reference(RefTo(name)) == Some(name)
  {
    assert (REF_PREFIX + name)[|REF_PREFIX|..] == name;
    if fuel > 0 {
      ScalarYields(Text(REF_PREFIX + name), comps, stack, fuel - 1);
      FieldYields(RefKey, Text(REF_PREFIX + name), Text(REF_PREFIX + name), comps, stack, fuel - 1);
    }
  }

  /** An alias becomes an alternative that still holds its reference. */
  lemma AliasYields(name: string, comps: Components, stack: seq<string>, fuel: nat)
    ensures Yields(Project(Alias(name), comps, stack, fuel), Alternative(AllOfOne(RefTo(name))))
  {
    if fuel > 0 {
      AliasChildren(name, comps, stack, fuel - 1);
      hide ProjectChildren;
      FlatWithoutList(Alternative(AllOfOne(RefTo(name))).fields, comps, stack, fuel - 1);
    }
  }

  lemma AliasChildren(name: string, comps: Components, stack: seq<string>, fuel: nat)
    ensures Yields(ProjectChildren(Alias(name), comps, stack, fuel), AllOfOne(RefTo(name)))
  {
    var s := Alias(name);
    if fuel > 0 {
      RefYields(name, comps, stack, fuel - 1);
      ArrayYields([RefTo(name)], [RefTo(name)], comps, stack, fuel - 1);
    }
    hide Project, RefTo;
    var outcomes := map j | j in s.fields && Kept(j) :: Project(s.fields[j], comps, stack, fuel);
    assert outcomes.Keys == {AllOf};
    GatherOfOne(outcomes, AllOf, Project(Array([RefTo(name)]), comps, stack, fuel));
  }

  lemma SafeAlternative(name: string, names: set<string>)
    requires name in names
    ensures Safe(RefTo(name), names) && Safe(AllOfOne(RefTo(name)), names) && Safe(Alternative(AllOfOne(RefTo(name))), names)
    ensures Safe(AllOfOne(AllOfOne(RefTo(name))), names)
  {
    assert (REF_PREFIX + name)[|REF_PREFIX|..] == name;
    assert Safe(Text(REF_PREFIX + name), names);
    assert Reference(RefTo(name)) == Some(name);
    assert Safe(Array([RefTo(name)]), names);
    assert Safe(Text(NULL_NAME), names) && Safe(NULL_TYPE, names);
    assert Safe(Array([AllOfOne(RefTo(name)), NULL_TYPE]), names);
    assert Safe(Array([AllOfOne(RefTo(name))]), names);
  }

  lemma {:induction false} SafeNeverFails(s: Schema, names: set<string>, comps: Components, fuel: nat)
    requires AliasCycle(comps, names) && Safe(s, names)
    ensures SafeOutcome(Project(s, comps, [], fuel), names)
    decreases fuel, 1
  {
    hide Project, Flatten, AliasCycle, ProjectChildren, Safe;
    if fuel > 0 {
      SafeIsPlain(s, names);
      PlainProjects(s, comps, fuel);
      SafeChildren(s, names, comps, fuel - 1);
      var children := ProjectChildren(s, comps, [], fuel - 1);
      if children.Done? {
        if children.value.Object? { SafeFlattening(children.value.fields, names, comps, fuel - 1); } else { FlatUnlessObject(children.value, comps, fuel - 1); }
      }
    } else {
      NoFuel(s, comps);
    }
  }

  lemma NoFuel(s: Schema, comps: Components)
    ensures Project(s, comps, [], 0).OutOfFuel?
  {
  }

  lemma SafeIsPlain(s: Schema, names: set<string>)
    requires Safe(s, names)
    ensures !IsNullable(s)
  {
  }

  lemma PlainProjects(s: Schema, comps: Components, fuel: nat)
    requires fuel > 0 && !IsNullable(s)
    ensures var children := ProjectChildren(s, comps, [], fuel - 1);
            Project(s, comps, [], fuel) == if children.Done? then Flatten(children.value, comps, [], fuel - 1) else children
  {
  }

  lemma FlatUnlessObject(s: Schema, comps: Components, fuel: nat)
    requires !s.Object?
    ensures Flatten(s, comps, [], fuel) == Done(s)
  {
  }

  lemma {:induction false} SafeChildren(s: Schema, names: set<string>, comps: Components, fuel: nat)
    requires AliasCycle(comps, names) && Safe(s, names)
    ensures SafeOutcome(ProjectChildren(s, comps, [], fuel), names)
    decreases fuel, 2
  {
    hide AliasCycle, Project;
    match s
    case Array(items) =>
      var outcomes := seq(|items|, i requires 0 <= i < |items| => Project(items[i], comps, [], fuel));
      forall i | 0 <= i < |items| ensures SafeOutcome(outcomes[i], names) { SafeNeverFails(items[i], names, comps, fuel); }
      SafeSequence(outcomes, names);
    case Object(fields) =>
      var outcomes := map k | k in fields && Kept(k) :: Project(fields[k], comps, [], fuel);
      forall k | k in outcomes ensures SafeOutcome(outcomes[k], names) { SafeNeverFails(fields[k], names, comps, fuel); }
      if Gather(outcomes).Done? { SafeFields(fields, outcomes, names, comps, fuel); }
      assert forall k :: k in outcomes ==> !outcomes[k].Failed?;
    case _ =>
  }

  lemma SafeSequence(outcomes: seq<Outcome<Schema>>, names: set<string>)
    requires forall i :: 0 <= i < |outcomes| ==> SafeOutcome(outcomes[i], names)
    ensures !Sequence(outcomes).Failed?
    ensures Sequence(outcomes).Done? ==>
              |Sequence(outcomes).value| == |outcomes| && forall i :: 0 <= i < |outcomes| ==> Safe(Sequence(outcomes).value[i], names)
  {
    if Sequence(outcomes).Done? { SequenceItems(outcomes); }
  }

  /** The fields of a safe object are safe after their projection, and its reference is the same. */
  lemma SafeFields(fields: map<Key, Schema>, outcomes: map<Key, Outcome<Schema>>, names: set<string>, comps: Components, fuel: nat)
    requires Safe(Object(fields), names) && Gather(outcomes).Done?
    requires outcomes == map k | k in fields && Kept(k) :: Project(fields[k], comps, [], fuel)
    requires forall k :: k in outcomes ==> SafeOutcome(outcomes[k], names)
    ensures Safe(Object(Gather(outcomes).value), names)
  {
    hide Project;
    var values := Gather(outcomes).value;
    assert values.Keys == outcomes.Keys;
    assert forall k :: k in values ==> outcomes[k] == Done(values[k]) && Safe(values[k], names);
    if RefKey in values { ScalarStays(fields[RefKey], comps, [], fuel); }
    if Type in values { ScalarStays(fields[Type], comps, [], fuel); }
    assert Reference(Object(values)) == Reference(Object(fields));
  }

  lemma {:induction false} SafeFlattening(fields: map<Key, Schema>, names: set<string>, comps: Components, fuel: nat)
    requires AliasCycle(comps, names) && Safe(Object(fields), names)
    ensures SafeOutcome(Flatten(Object(fields), comps, [], fuel), names)
    decreases fuel, 3
  {
    hide AliasCycle;
    assert Reference(Object(fields - {AllOf})) == Reference(Object(fields));
    if AllOf in fields && fields[AllOf].Array? {
      var parts := fields[AllOf].items;
      assert Safe(fields[AllOf], names);
      var outcomes := seq(|parts|, i requires 0 <= i < |parts| => Resolve(parts[i], comps, [], fuel));
      forall i | 0 <= i < |parts| ensures SafeOutcome(outcomes[i], names) { SafePart(parts[i], names, comps, fuel); }
      hide Resolve;
      SafeSequence(outcomes, names);
      if Sequence(outcomes).Done? { SafeReassembly(fields, Sequence(outcomes).value, names); }
      hide Safe, Reassemble;
    }
  }

  lemma SafeReassembly(fields: map<Key, Schema>, values: seq<Schema>, names: set<string>)
    requires Safe(Object(fields), names) && forall i :: 0 <= i < |values| ==> Safe(values[i], names)
    ensures SafeOutcome(Reassemble(fields - {AllOf}, values), names)
  {
    assert forall i :: 0 <= i < |values| ==> !IsObjectSchema(values[i]);
    assert Safe(Array(values), names);
    if values != [] { assert !IsObjectSchema(values[0]); }
    assert Reference(Object((fields - {AllOf})[AllOf := Array(values)])) == Reference(Object(fields));
    assert Reference(Object(fields - {AllOf})) == Reference(Object(fields));
  }

  lemma {:induction false} SafePart(part: Schema, names: set<string>, comps: Components, fuel: nat)
    requires AliasCycle(comps, names) && Safe(part, names)
    ensures SafeOutcome(Resolve(part, comps, [], fuel), names)
    decreases fuel, 2
  {
    if Reference(part).Some? {
      var name := Reference(part).value;
      var target := AliasTarget(comps[name]).value;
      AliasYields(target, comps, [] + [name], fuel);
      SafeAlternative(target, names);
    } else {
      SafeNeverFails(part, names, comps, fuel);
    }
  }

  /** In a cycle of aliases nothing can fail, so the projection runs out of every depth of calls. */
  lemma AliasCycleDiverges(comps: Components, names: set<string>, name: string)
    requires AliasCycle(comps, names) && name in names
    ensures !Ends(AllOfOne(AllOfOne(RefTo(name))), comps, [])
  {
    hide Project, AliasCycle, KeptCycle, Safe, AllOfOne, RefTo;
    forall fuel: nat ensures Project(AllOfOne(AllOfOne(RefTo(name))), comps, [], fuel).OutOfFuel? {
      AliasCyclesHide(comps, names);
      KeptCycleNeverProjects(comps, names, name, [], fuel);
      SafeAlternative(name, names);
      SafeNeverFails(AllOfOne(AllOfOne(RefTo(name))), names, comps, fuel);
    }
  }

  /** So projection does not end for every set of components without bare references: a nullable
      component that refers to itself is enough. */
  lemma ProjectionNeedNotEnd(name: string)
    ensures !Ends(AllOfOne(AllOfOne(RefTo(name))), map[name := Alias(name)], [])
    ensures Reference(Alias(name)).None?
  {
    assert (REF_PREFIX + name)[|REF_PREFIX|..] == name;
    assert Reference(RefTo(name)) == Some(name);
    assert AliasTarget(Alias(name)) == Some(name);
    AliasCycleDiverges(map[name := Alias(name)], {name}, name);
  }

  // ---------------------------------------------------------------- components that are aliases or hold no reference

  /** Every component is an alias, or holds no `allOf` reference and is none itself. */
  ghost predicate AliasesOnly(comps: Components)
  {
    forall n :: n in comps ==> AliasTarget(comps[n]).Some? || (Still(comps[n]) && Reference(comps[n]).None?)
  }

  /** Following the aliases from `name` comes to an end within `steps`. */
  ghost predicate Stops(comps: Components, name: string, steps: nat)
    decreases steps
  {
    name !in comps || AliasTarget(comps[name]).None? || (steps > 0 && Stops(comps, AliasTarget(comps[name]).value, steps - 1))
  }

  ghost predicate EveryAliasStops(comps: Components)
  {
    forall name :: name in comps ==> exists steps: nat :: Stops(comps, name, steps)
  }

  ghost predicate Fewest(comps: Components, name: string, steps: nat)
  {
    Stops(comps, name, steps) && forall k: nat :: k < steps ==> !Stops(comps, name, k)
  }

  /** The length of the chain of aliases that starts here, if it comes to an end. */
  ghost function Length(comps: Components, name: string): nat
  {
    if k: nat :| Fewest(comps, name, k) then k else 0
  }

  lemma LengthIsFewest(comps: Components, name: string, steps: nat)
    requires Stops(comps, name, steps)
    ensures Fewest(comps, name, Length(comps, name))
  {
    var fewest := 0;
    while !Stops(comps, name, fewest)
      invariant fewest <= steps && forall k: nat :: k < fewest ==> !Stops(comps, name, k)
      decreases steps - fewest
    {
      fewest := fewest + 1;
    }
    assert Fewest(comps, name, fewest);
  }

  /** An alias is one step longer than its target. */
  lemma LengthOfAlias(comps: Components, name: string, steps: nat)
    requires Stops(comps, name, steps) && name in comps && AliasTarget(comps[name]).Some?
    ensures Length(comps, name) == Length(comps, AliasTarget(comps[name]).value) + 1
  {
    var target := AliasTarget(comps[name]).value;
    LengthIsFewest(comps, name, steps);
    LengthIsFewest(comps, target, steps - 1);
    var here, there := Length(comps, name), Length(comps, target);
    assert Stops(comps, name, there + 1) && Stops(comps, target, here - 1);
  }

  ghost function AliasRank(comps: Components, name: string): nat
  {
    if Length(comps, name) == 0 then 0 else Length(comps, name) + 1
  }

  lemma AliasesAreRanked(comps: Components)
    requires AliasesOnly(comps) && EveryAliasStops(comps)
    ensures Ranked(comps, name => AliasRank(comps, name))
  {
    var rank := name => AliasRank(comps, name);
    forall name | name in comps ensures Unfolds(comps[name], comps, rank, rank(name), 1) && Reference(comps[name]).None? {
      if AliasTarget(comps[name]).Some? {
        var steps: nat :| Stops(comps, name, steps);
        LengthOfAlias(comps, name, steps);
        AliasUnfolds(comps, rank, AliasTarget(comps[name]).value, rank(name));
      } else {
        StillUnfolds(comps[name], comps, rank, rank(name), 1);
      }
    }
  }

  lemma AliasUnfolds(comps: Components, rank: Rank, target: string, level: nat)
    requires Cost(rank, target) < level && AliasTarget(Alias(target)) == Some(target)
    ensures Unfolds(Alias(target), comps, rank, level, 1) && Reference(Alias(target)).None?
  {
    var part := RefTo(target);
    assert Reference(part) == Some(target);
    assert Unfolds(part, comps, rank, level, 0);
    assert Unfolds(Array([part]), comps, rank, level, 0);
  }

  ghost predicate NeverStops(comps: Components, name: string) { forall steps: nat :: !Stops(comps, name, steps) }

  lemma NextNeverStops(comps: Components, name: string)
    requires name in comps && NeverStops(comps, name)
    ensures AliasTarget(comps[name]).Some? && AliasTarget(comps[name]).value in comps && NeverStops(comps, AliasTarget(comps[name]).value)
  {
    assert !Stops(comps, name, 0);
    var target := AliasTarget(comps[name]).value;
    forall steps: nat ensures !Stops(comps, target, steps) { assert !Stops(comps, name, steps + 1); }
    assert !Stops(comps, target, 0);
  }

  lemma SomeEndlessAlias(comps: Components) returns (name: string)
    requires !EveryAliasStops(comps)
    ensures name in comps && NeverStops(comps, name)
  {
    name :| name in comps && forall steps: nat :: !Stops(comps, name, steps);
  }

  lemma StoppingAliasesEnd(comps: Components, s: Schema, stack: seq<string>)
    requires AliasesOnly(comps) && EveryAliasStops(comps)
    ensures Ends(s, comps, stack)
  {
    hide Ends, Ranked, EveryAliasStops, AliasesOnly;
    AliasesAreRanked(comps);
    ProjectionEnds(s, comps, stack, name => AliasRank(comps, name));
  }

  lemma EndlessAliasesDiverge(comps: Components, name: string)
    requires name in comps && NeverStops(comps, name)
    ensures !Ends(AllOfOne(AllOfOne(RefTo(name))), comps, [])
  {
    hide Stops, Ends, AliasTarget, NeverStops;
    var names := set n | n in comps && NeverStops(comps, n);
    forall n | n in names ensures AliasTarget(comps[n]).Some? && AliasTarget(comps[n]).value in names { NextNeverStops(comps, n); }
    AliasCycleDiverges(comps, names, name);
  }

  /** If every component is an alias or holds no reference, then the projection of every schema ends if
      and only if following the aliases always comes to an end. */
  lemma AliasesEndExactly(comps: Components)
    requires AliasesOnly(comps)
    ensures (forall s: Schema, stack: seq<string> :: Ends(s, comps, stack)) <==> EveryAliasStops(comps)
  {
    hide Ends, AliasesOnly, NeverStops, Stops;
    if EveryAliasStops(comps) {
      forall s: Schema, stack: seq<string> ensures Ends(s, comps, stack) { StoppingAliasesEnd(comps, s, stack); }
    } else {
      var name := SomeEndlessAlias(comps);
      EndlessAliasesDiverge(comps, name);
    }
  }
}

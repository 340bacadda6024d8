/** Pruning the generated id codecs (pwa/scripts/api-codegen.ts): the names from which an id marker
    can be reached are found by a fixpoint, everything else is removed, and the conversion that
    uses the codecs (pwa/src/app/api/json-ids.ts) must not notice. */
module CompactCodecs {
  import opened Json

  /** `Marker` is the number 1, `Zero` the number 0 that marks nothing but is kept as a number. */
  datatype Codec = Zero | Marker | Ref(name: string) | List(item: Codec) | Fields(fields: map<string, Codec>)

  type Schemas = map<string, Codec>

  function Lookup(schemas: Schemas, name: string): Option<Codec>
  {
    if name in schemas then Some(schemas[name]) else None
  }

  // ---------------------------------------------------------------- the needed names

  predicate Needs(c: Codec, needed: set<string>)
  {
    match c
    case Zero => true
    case Marker => true
    case Ref(name) => name in needed
    case List(item) => Needs(item, needed)
    case Fields(fields) => exists k :: k in fields && Needs(fields[k], needed)
  }

  /** The number of references that have to be followed from `name` to a number is at most `hops`. */
  ghost predicate ReachesWithin(schemas: Schemas, name: string, hops: nat)
  {
    name in schemas && CodecReaches(schemas, schemas[name], hops)
  }

  ghost predicate CodecReaches(schemas: Schemas, c: Codec, hops: nat)
    decreases hops, c
  {
    match c
    case Zero => true
    case Marker => true
    case Ref(name) => hops > 0 && name in schemas && CodecReaches(schemas, schemas[name], hops - 1)
    case List(item) => CodecReaches(schemas, item, hops)
    case Fields(fields) => exists k :: k in fields && CodecReaches(schemas, fields[k], hops)
  }

  ghost predicate Reaches(schemas: Schemas, name: string) { exists hops: nat :: ReachesWithin(schemas, name, hops) }

  ghost function Reachable(schemas: Schemas): set<string> { set name | name in schemas && Reaches(schemas, name) }

  lemma {:induction false} NeedsIsMonotone(c: Codec, s: set<string>, t: set<string>)
    requires Needs(c, s) && s <= t
    ensures Needs(c, t)
  {
    match c
    case List(item) => NeedsIsMonotone(item, s, t);
    case Fields(fields) =>
      var k :| k in fields && Needs(fields[k], s);
      NeedsIsMonotone(fields[k], s, t);
    case _ =>
  }

  /** A codec that needs a reachable name reaches a number itself. */
  lemma {:induction false} NeedingReaches(schemas: Schemas, c: Codec) returns (hops: nat)
    requires Needs(c, Reachable(schemas))
    ensures CodecReaches(schemas, c, hops)
  {
    match c {
      case Zero => hops := 0;
      case Marker => hops := 0;
      case Ref(name) =>
        assert Reaches(schemas, name);
        var h: nat :| ReachesWithin(schemas, name, h);
        hops := h + 1;
      case List(item) => hops := NeedingReaches(schemas, item);
      case Fields(fields) =>
        var k :| k in fields && Needs(fields[k], Reachable(schemas));
        hops := NeedingReaches(schemas, fields[k]);
    }
  }

  /** Whatever reaches a number needs a name of every closed set. */
  lemma {:induction false} ReachingNeeds(schemas: Schemas, c: Codec, hops: nat, closed: set<string>)
    requires CodecReaches(schemas, c, hops) && Closed(schemas, closed)
    ensures Needs(c, closed)
    decreases hops, c
  {
    match c
    case Ref(name) => ReachingNeeds(schemas, schemas[name], hops - 1, closed);
    case List(item) => ReachingNeeds(schemas, item, hops, closed);
    case Fields(fields) =>
      var k :| k in fields && CodecReaches(schemas, fields[k], hops);
      ReachingNeeds(schemas, fields[k], hops, closed);
    case _ =>
  }

  ghost predicate Closed(schemas: Schemas, s: set<string>)
  {
    forall name :: name in schemas && Needs(schemas[name], s) ==> name in s
  }

  /** The reachable names are the least closed set, and exactly those whose codec needs one. */
  lemma ReachableIsLeast(schemas: Schemas)
    ensures Closed(schemas, Reachable(schemas))
    ensures forall closed :: Closed(schemas, closed) ==> Reachable(schemas) <= closed
    ensures forall name :: name in Reachable(schemas) <==> name in schemas && Needs(schemas[name], Reachable(schemas))
  {
    forall name | name in schemas && Needs(schemas[name], Reachable(schemas)) ensures name in Reachable(schemas) {
      var hops := NeedingReaches(schemas, schemas[name]);
      assert ReachesWithin(schemas, name, hops);
    }
    forall closed, name | Closed(schemas, closed) && name in Reachable(schemas) ensures name in closed {
      var hops: nat :| ReachesWithin(schemas, name, hops);
      ReachingNeeds(schemas, schemas[name], hops, closed);
    }
    forall name | name in Reachable(schemas) ensures Needs(schemas[name], Reachable(schemas)) {
      var hops: nat :| ReachesWithin(schemas, name, hops);
      ReachingNeeds(schemas, schemas[name], hops, Reachable(schemas));
    }
  }

  /** The growing loop: passes over all names until a pass adds none. */
  method FindNeeded(schemas: Schemas, names: seq<string>) returns (needed: set<string>)
    requires forall name :: name in names <==> name in schemas
    ensures needed == Reachable(schemas)
  {
    needed := {};
    ReachableIsLeast(schemas);
    var changed := true;
    while changed
      invariant needed <= Reachable(schemas)
      invariant !changed ==> Closed(schemas, needed)
      decreases Reachable(schemas) - needed, changed
    {
      changed := false;
      ghost var before := needed;
      for i := 0 to |names|
        invariant before <= needed <= Reachable(schemas)
        invariant !changed ==> needed == before
        invariant changed ==> before < needed
        invariant forall j :: 0 <= j < i && !changed ==> names[j] in needed || !Needs(schemas[names[j]], needed)
      {
        if names[i] !in needed && Needs(schemas[names[i]], needed) {
          NeedsIsMonotone(schemas[names[i]], needed, Reachable(schemas));
          needed := needed + {names[i]};
          changed := true;
        }
      }
      assert changed ==> Reachable(schemas) - needed < Reachable(schemas) - before;
    }
  }

  // ---------------------------------------------------------------- pruning

  /** What is left of a codec; None stands for `undefined`. */
  function Compact(c: Codec, needed: set<string>): (r: Option<Codec>)
    ensures r.Some? <==> Needs(c, needed)
  {
    match c
    case Zero => Some(c)
    case Marker => Some(c)
    case Ref(name) => if name in needed then Some(c) else None
    case List(item) =>
      var child := Compact(item, needed);
      if child.None? then None else Some(List(child.value))
    case Fields(fields) =>
      var kept := map k | k in fields && Needs(fields[k], needed) :: Compact(fields[k], needed).value;
      assert forall k :: k in kept <==> k in fields && Needs(fields[k], needed);
      if kept == map[] then None else Some(Fields(kept))
  }

  /** The names kept are those whose own codec needs a kept name or a number. */
  ghost predicate Fixpoint(schemas: Schemas, needed: set<string>)
  {
    forall name :: name in needed <==> name in schemas && Needs(schemas[name], needed)
  }

  function Compacted(schemas: Schemas, needed: set<string>): Schemas
    requires Fixpoint(schemas, needed)
  {
    map name | name in needed :: Compact(schemas[name], needed).value
  }

  method CompactCodecs(schemas: Schemas, names: seq<string>) returns (result: Schemas)
    requires forall name :: name in names <==> name in schemas
    ensures Fixpoint(schemas, Reachable(schemas))
    ensures result == Compacted(schemas, Reachable(schemas))
  {
    ReachableIsLeast(schemas);
    var needed := FindNeeded(schemas, names);
    result := map name | name in needed :: Compact(schemas[name], needed).value;
  }

  /** Every reference can be followed, and no object of fields is empty. */
  ghost predicate WellFormed(c: Codec, names: set<string>)
  {
    match c
    case Zero => true
    case Marker => true
    case Ref(name) => name in names
    case List(item) => WellFormed(item, names)
    case Fields(fields) => fields != map[] && forall k :: k in fields ==> WellFormed(fields[k], names)
  }

  lemma {:induction false} CompactIsWellFormed(c: Codec, needed: set<string>)
    requires Needs(c, needed)
    ensures WellFormed(Compact(c, needed).value, needed)
  {
    match c
    case List(item) => CompactIsWellFormed(item, needed);
    case Fields(fields) =>
      forall k | k in fields && Needs(fields[k], needed) ensures WellFormed(Compact(fields[k], needed).value, needed) {
        CompactIsWellFormed(fields[k], needed);
      }
    case _ =>
  }

  /** No entry of the result is undefined or empty, and no reference in it is dangling. */
  lemma ResultIsWellFormed(schemas: Schemas, needed: set<string>)
    requires Fixpoint(schemas, needed)
    ensures Compacted(schemas, needed).Keys == needed
    ensures forall name :: name in needed ==> WellFormed(Compacted(schemas, needed)[name], Compacted(schemas, needed).Keys)
  {
    forall name | name in needed ensures WellFormed(Compacted(schemas, needed)[name], needed) {
      CompactIsWellFormed(schemas[name], needed);
    }
  }

  // ---------------------------------------------------------------- conversion

  /** Codecs that are falsy in JavaScript convert nothing. */
  predicate Falsy(c: Option<Codec>) { c.None? || c.value.Zero? || c.value == Ref("") }

  function Item(c: Codec): Option<Codec> { if c.List? then Some(c.item) else None }

  /** The codec of an object's field; a list codec has the single field "0". */
  function Child(c: Codec, key: string): Option<Codec>
  {
    match c
    case Fields(fields) => Lookup(fields, key)
    case List(item) => if key == "0" then Some(item) else None
    case _ => None
  }

  /** The conversion ends after following at most `hops` references on every path. */
  predicate Completes(v: Value, codec: Option<Codec>, schemas: Schemas, hops: nat)
    decreases hops, v
  {
    if v.JNull? || Falsy(codec) || codec.value.Marker? then true
    else if codec.value.Ref? then hops > 0 && Completes(v, Lookup(schemas, codec.value.name), schemas, hops - 1)
    else
      match v
      case JArray(items) => forall i :: 0 <= i < |items| ==> Completes(items[i], Item(codec.value), schemas, hops)
      case JObject(fields) => forall k :: k in fields ==> Completes(fields[k], Child(codec.value, k), schemas, hops)
      case _ => true
  }

  /** The conversion of a value: `encode` is applied exactly at the marked positions. */
  function Converted(encode: Value -> Value, v: Value, codec: Option<Codec>, schemas: Schemas, hops: nat): Value
    requires Completes(v, codec, schemas, hops)
    decreases hops, v
  {
    if v.JNull? || Falsy(codec) then v
    else if codec.value.Marker? then encode(v)
    else if codec.value.Ref? then Converted(encode, v, Lookup(schemas, codec.value.name), schemas, hops - 1)
    else
      match v
      case JArray(items) =>
        JArray(seq(|items|, i requires 0 <= i < |items| => Converted(encode, items[i], Item(codec.value), schemas, hops)))
      case JObject(fields) =>
        JObject(map k | k in fields :: Converted(encode, fields[k], Child(codec.value, k), schemas, hops))
      case _ => v
  }

  /** A codec from which no number can be reached changes nothing. */
  lemma {:induction false} UnneededIsInert(encode: Value -> Value, v: Value, c: Codec, schemas: Schemas, needed: set<string>, hops: nat)
    requires Fixpoint(schemas, needed) && !Needs(c, needed) && Completes(v, Some(c), schemas, hops)
    ensures Converted(encode, v, Some(c), schemas, hops) == v
    decreases hops, v
  {
    if v.JNull? || Falsy(Some(c)) {
    } else if c.Ref? {
      if c.name in schemas { UnneededIsInert(encode, v, schemas[c.name], schemas, needed, hops - 1); }
    } else {
      match v
      case JArray(items) =>
        forall i | 0 <= i < |items| ensures Converted(encode, items[i], Item(c), schemas, hops) == items[i] {
          if c.List? { UnneededIsInert(encode, items[i], c.item, schemas, needed, hops); }
        }
      case JObject(fields) =>
        forall k | k in fields ensures Converted(encode, fields[k], Child(c, k), schemas, hops) == fields[k] {
          if Child(c, k).Some? { UnneededIsInert(encode, fields[k], Child(c, k).value, schemas, needed, hops); }
        }
      case _ =>
    }
  }

  function CompactOption(c: Option<Codec>, needed: set<string>): Option<Codec>
  {
    if c.None? then None else Compact(c.value, needed)
  }

  /** Conversion `d` with the pruned schemas does what conversion `c` does with all of them. */
  ghost predicate Agrees(encode: Value -> Value, v: Value, c: Option<Codec>, d: Option<Codec>, schemas: Schemas, needed: set<string>, hops: nat)
    requires Fixpoint(schemas, needed) && Completes(v, c, schemas, hops)
  {
    Completes(v, d, Compacted(schemas, needed), hops) &&
    Converted(encode, v, d, Compacted(schemas, needed), hops) == Converted(encode, v, c, schemas, hops)
  }

  function Pruned(c: Option<Codec>, needed: set<string>, root: bool): Option<Codec>
  {
    if root then c else CompactOption(c, needed)
  }

  /** Whenever the original conversion completes, the conversion with the pruned schemas completes
      as well and gives the same value, with the codec at the root pruned or not: exactly the same
      positions are marked, at every depth. */
  lemma {:induction false} CompactionPreservesMeaning(encode: Value -> Value, v: Value, c: Option<Codec>, schemas: Schemas,
                                                      needed: set<string>, hops: nat, root: bool)
    requires Fixpoint(schemas, needed) && Completes(v, c, schemas, hops)
    ensures Agrees(encode, v, c, Pruned(c, needed, root), schemas, needed, hops)
    decreases hops, v, 1
  {
    if v.JNull? || Falsy(c) || c.value.Marker? {
    } else if !Needs(c.value, needed) && !root {
      UnneededIsInert(encode, v, c.value, schemas, needed, hops);
    } else if c.value.Ref? {
      FollowPreserves(encode, v, c.value.name, schemas, needed, hops);
    } else if v.JArray? {
      ItemsPreserve(encode, v, c.value, schemas, needed, hops, root);
    } else if v.JObject? {
      FieldsPreserve(encode, v, c.value, schemas, needed, hops, root);
    }
  }

  lemma {:induction false} ItemsPreserve(encode: Value -> Value, v: Value, c: Codec, schemas: Schemas, needed: set<string>, hops: nat, root: bool)
    requires Fixpoint(schemas, needed) && Completes(v, Some(c), schemas, hops)
    requires v.JArray? && (c.List? || c.Fields?) && (root || Needs(c, needed))
    ensures Agrees(encode, v, Some(c), Pruned(Some(c), needed, root), schemas, needed, hops)
    decreases hops, v, 0
  {
    var d := Pruned(Some(c), needed, root).value;
    assert Item(d) == Pruned(Item(c), needed, root);
    forall i | 0 <= i < |v.items| ensures Agrees(encode, v.items[i], Item(c), Item(d), schemas, needed, hops) {
      CompactionPreservesMeaning(encode, v.items[i], Item(c), schemas, needed, hops, root);
    }
  }

  lemma {:induction false} FieldsPreserve(encode: Value -> Value, v: Value, c: Codec, schemas: Schemas, needed: set<string>, hops: nat, root: bool)
    requires Fixpoint(schemas, needed) && Completes(v, Some(c), schemas, hops)
    requires v.JObject? && (c.List? || c.Fields?) && (root || Needs(c, needed))
    ensures Agrees(encode, v, Some(c), Pruned(Some(c), needed, root), schemas, needed, hops)
    decreases hops, v, 0
  {
    var d := Pruned(Some(c), needed, root).value;
    forall k | k in v.fields ensures Agrees(encode, v.fields[k], Child(c, k), Child(d, k), schemas, needed, hops) {
      if !root { ChildOfCompact(c, k, needed); }
      CompactionPreservesMeaning(encode, v.fields[k], Child(c, k), schemas, needed, hops, root);
    }
  }

  lemma ChildOfCompact(c: Codec, key: string, needed: set<string>)
    requires Needs(c, needed) && (c.List? || c.Fields?)
    ensures Child(Compact(c, needed).value, key) == CompactOption(Child(c, key), needed)
  {
  }

  lemma {:induction false} FollowPreserves(encode: Value -> Value, v: Value, name: string, schemas: Schemas, needed: set<string>, hops: nat)
    requires Fixpoint(schemas, needed) && hops > 0 && Completes(v, Lookup(schemas, name), schemas, hops - 1)
    ensures Agrees(encode, v, Lookup(schemas, name), Lookup(Compacted(schemas, needed), name), schemas, needed, hops - 1)
    decreases hops, v, 0
  {
    if name in needed {
      CompactionPreservesMeaning(encode, v, Some(schemas[name]), schemas, needed, hops - 1, false);
    } else if name in schemas {
      UnneededIsInert(encode, v, schemas[name], schemas, needed, hops - 1);
    }
  }

  /** Only in this direction: a codec that refers to itself for ever is removed, and then the
      conversion completes. */
  lemma {:induction false} PruningCanOnlyHelp(name: string, v: Value, hops: nat)
    requires name != "" && !v.JNull?
    ensures var schemas := map[name := Ref(name)];
            !Completes(v, Some(Ref(name)), schemas, hops) &&
            Fixpoint(schemas, {}) && Completes(v, Some(Ref(name)), Compacted(schemas, {}), 1)
    decreases hops
  {
    if hops > 0 { PruningCanOnlyHelp(name, v, hops - 1); }
  }
}

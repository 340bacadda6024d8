/** The permission cache (backend/src/services/authz.rs). A request reads the forum group of the user,
    looks in the cache, and on a miss loads assignments and permissions with separate statements,
    each of which sees the tables as they are at that moment. Any number of requests, changes of the
    tables and prunings interleave. `versions` is history: every state the tables have been in. */
module PermissionCache {
  import opened Json

  const TTL: nat := 60_000
  const PRUNE_AGE: nat := 15 * 60_000
  const PRUNE_SIZE: nat := 1024
  const PERMISSION_ALL := "permission.all"

  datatype Subject = User(uid: int, group: Option<int>) | ServiceToken(token: int)
  datatype Resource = Global | Chat(chat: int)
  datatype Key = Key(subject: Subject, resource: Resource)

  datatype SubjectType = UserSubject | GroupSubject | TokenSubject
  datatype Assignment = Assignment(kind: SubjectType, subjectId: int, policy: int)
  datatype Permission = Permission(policy: int, resource: Resource, action: string)
  datatype Tables = Tables(groups: map<int, int>, assignments: set<Assignment>, permissions: set<Permission>)

  /** The tables from time `since` until the next version. */
  datatype Version = Version(tables: Tables, since: nat)

  /** Where an answer comes from: the versions seen by the statements of its load, and when the load
      began and ended. */
  datatype Origin = Origin(direct: nat, viaGroup: nat, permissions: nat, began: nat, ended: nat)

  datatype Entry = Entry(actions: set<string>, cachedAt: nat, origin: Origin)

  datatype Stage =
    | Started
    | Loading(began: nat)
    | HasDirect(began: nat, ids: set<int>, v1: nat)
    | HasPolicies(began: nat, ids: set<int>, v1: nat, v2: nat)
    | HasActions(began: nat, actions: set<string>, v1: nat, v2: nat, v3: nat)
    | Answered(actions: set<string>, origin: Origin, at: nat)

  /** `lookup` is the version in which the group of the user was read. */
  datatype Request = Request(key: Key, lookup: nat, stage: Stage)

  datatype State = State(now: nat, versions: seq<Version>, cache: map<Key, Entry>,
                         requests: map<nat, Request>, pruning: multiset<Key>)

  datatype Action =
    | Change(tables: Tables)
    | Wait(time: nat)
    | AskUser(request: nat, uid: int, resource: Resource)
    | AskToken(request: nat, token: int, resource: Resource)
    | Look(request: nat)
    | LoadDirect(request: nat)
    | LoadGroup(request: nat)
    | LoadPermissions(request: nat)
    | Store(request: nat)
    | CollectStale
    | RemoveStale(key: Key)

  // ---------------------------------------------------------------- the statements

  function PolicyIds(t: Tables, kind: SubjectType, id: int): set<int>
  {
    set a | a in t.assignments && a.kind == kind && a.subjectId == id :: a.policy
  }

  function DirectIds(t: Tables, s: Subject): set<int>
  {
    match s
    case User(uid, _) => PolicyIds(t, UserSubject, uid)
    case ServiceToken(token) => PolicyIds(t, TokenSubject, token)
  }

  function GroupIds(t: Tables, s: Subject): set<int>
  {
    match s
    case User(_, Some(group)) => PolicyIds(t, GroupSubject, group)
    case _ => {}
  }

  function ActionsOf(t: Tables, ids: set<int>, resource: Resource): set<string>
  {
    set p | p in t.permissions && p.policy in ids && p.resource == resource :: p.action
  }

  /** What the tables give at one instant. */
  function Granted(t: Tables, k: Key): set<string>
  {
    ActionsOf(t, DirectIds(t, k.subject) + GroupIds(t, k.subject), k.resource)
  }

  /** What a load gives whose statements saw the tables `a`, `b` and `c`. */
  function Loaded(a: Tables, b: Tables, c: Tables, k: Key): set<string>
  {
    ActionsOf(c, DirectIds(a, k.subject) + GroupIds(b, k.subject), k.resource)
  }

  predicate HasPermission(actions: set<string>, action: string) { action in actions || PERMISSION_ALL in actions }

  // ---------------------------------------------------------------- steps

  function Current(s: State): Tables
    requires s.versions != []
  {
    s.versions[|s.versions| - 1].tables
  }

  function With(s: State, i: nat, stage: Stage): State
    requires i in s.requests
  {
    s.(requests := s.requests[i := s.requests[i].(stage := stage)])
  }

  predicate Fresh(cache: map<Key, Entry>, k: Key, now: nat) { k in cache && now <= cache[k].cachedAt + TTL }

  function Stale(cache: map<Key, Entry>, now: nat): set<Key>
  {
    if |cache| <= PRUNE_SIZE then {} else set k | k in cache && cache[k].cachedAt + PRUNE_AGE < now
  }

  function Step(s: State, a: Action): (t: State)
    requires s.versions != []
    ensures t.versions != []
  {
    var v := |s.versions| - 1;
    match a
    case Change(tables) => s.(versions := s.versions + [Version(tables, s.now)])
    case Wait(time) => s.(now := s.now + time)
    case AskUser(i, uid, resource) =>
      if i in s.requests then s
      else
        var group := if uid in Current(s).groups then Some(Current(s).groups[uid]) else None;
        s.(requests := s.requests[i := Request(Key(User(uid, group), resource), v, Started)])
    case AskToken(i, token, resource) =>
      if i in s.requests then s else s.(requests := s.requests[i := Request(Key(ServiceToken(token), resource), v, Started)])
    case Look(i) =>
      if !(i in s.requests && s.requests[i].stage.Started?) then s
      else if Fresh(s.cache, s.requests[i].key, s.now) then
        var e := s.cache[s.requests[i].key];
        With(s, i, Answered(e.actions, e.origin, s.now))
      else With(s, i, Loading(s.now))
    case LoadDirect(i) =>
      if !(i in s.requests && s.requests[i].stage.Loading?) then s
      else With(s, i, HasDirect(s.requests[i].stage.began, DirectIds(Current(s), s.requests[i].key.subject), v))
    case LoadGroup(i) =>
      if !(i in s.requests && s.requests[i].stage.HasDirect?) then s
      else
        var k := s.requests[i].stage;
        With(s, i, HasPolicies(k.began, k.ids + GroupIds(Current(s), s.requests[i].key.subject), k.v1, v))
    case LoadPermissions(i) =>
      if !(i in s.requests && s.requests[i].stage.HasPolicies?) then s
      else
        var k := s.requests[i].stage;
        With(s, i, HasActions(k.began, if k.ids == {} then {} else ActionsOf(Current(s), k.ids, s.requests[i].key.resource), k.v1, k.v2, v))
    case Store(i) =>
      if !(i in s.requests && s.requests[i].stage.HasActions?) then s
      else
        var k := s.requests[i].stage;
        var origin := Origin(k.v1, k.v2, k.v3, k.began, s.now);
        With(s, i, Answered(k.actions, origin, s.now)).(cache := s.cache[s.requests[i].key := Entry(k.actions, s.now, origin)])
    case CollectStale => s.(pruning := s.pruning + multiset(Stale(s.cache, s.now)))
    case RemoveStale(k) => if k in s.pruning then s.(cache := s.cache - {k}, pruning := s.pruning - multiset{k}) else s
  }

  // ---------------------------------------------------------------- invariant

  /** Version `v` was in force at some moment between `from` and `to`. */
  ghost predicate InForce(versions: seq<Version>, v: nat, from: nat, to: nat)
  {
    v < |versions| && versions[v].since <= to && (v + 1 < |versions| ==> from <= versions[v + 1].since)
  }

  ghost predicate VersionsValid(versions: seq<Version>, now: nat)
  {
    && versions != []
    && (forall v, w :: 0 <= v <= w < |versions| ==> versions[v].since <= versions[w].since)
    && versions[|versions| - 1].since <= now
  }

  /** The answer is what the statements of one load gave, each for a version that was in force while
      the load ran. */
  ghost predicate Sourced(versions: seq<Version>, k: Key, actions: set<string>, o: Origin)
  {
    && o.began <= o.ended
    && InForce(versions, o.direct, o.began, o.ended)
    && InForce(versions, o.viaGroup, o.began, o.ended)
    && InForce(versions, o.permissions, o.began, o.ended)
    && o.direct <= o.viaGroup <= o.permissions
    && actions == Loaded(versions[o.direct].tables, versions[o.viaGroup].tables, versions[o.permissions].tables, k)
  }

  ghost predicate CacheValid(cache: map<Key, Entry>, versions: seq<Version>, now: nat)
  {
    forall k :: k in cache ==>
      cache[k].cachedAt <= now && cache[k].origin.ended == cache[k].cachedAt && Sourced(versions, k, cache[k].actions, cache[k].origin)
  }

  /** The key carries the group the user had when the request was made. */
  predicate KeyValid(versions: seq<Version>, r: Request)
  {
    && r.lookup < |versions|
    && (r.key.subject.User? ==>
          var groups := versions[r.lookup].tables.groups;
          r.key.subject.group == if r.key.subject.uid in groups then Some(groups[r.key.subject.uid]) else None)
  }

  ghost predicate RequestValid(r: Request, versions: seq<Version>, now: nat)
  {
    && KeyValid(versions, r)
    && match r.stage
       case Started => true
       case Loading(began) => began <= now
       case HasDirect(began, ids, v1) =>
         began <= now && InForce(versions, v1, began, now) && ids == DirectIds(versions[v1].tables, r.key.subject)
       case HasPolicies(began, ids, v1, v2) =>
         && began <= now && v1 <= v2 && InForce(versions, v1, began, now) && InForce(versions, v2, began, now)
         && ids == DirectIds(versions[v1].tables, r.key.subject) + GroupIds(versions[v2].tables, r.key.subject)
       case HasActions(began, actions, v1, v2, v3) => Sourced(versions, r.key, actions, Origin(v1, v2, v3, began, now))
       case Answered(actions, origin, at) =>
         at <= now && at <= origin.ended + TTL && origin.ended <= at && Sourced(versions, r.key, actions, origin)
  }

  ghost predicate Valid(s: State)
  {
    && VersionsValid(s.versions, s.now)
    && CacheValid(s.cache, s.versions, s.now)
    && forall i :: i in s.requests ==> RequestValid(s.requests[i], s.versions, s.now)
  }

  // ---------------------------------------------------------------- every step keeps it

  lemma SourcedLater(versions: seq<Version>, added: seq<Version>, k: Key, actions: set<string>, o: Origin, later: nat)
    requires Sourced(versions, k, actions, o) && o.ended <= later
    requires added != [] ==> added[0].since >= o.ended
    ensures Sourced(versions + added, k, actions, o.(ended := later)) && Sourced(versions + added, k, actions, o)
  {
  }

  lemma RequestLater(r: Request, versions: seq<Version>, added: seq<Version>, now: nat, later: nat)
    requires RequestValid(r, versions, now) && now <= later && (added != [] ==> added[0].since >= now)
    ensures RequestValid(r, versions + added, later)
  {
  }

  lemma TimePasses(s: State, added: seq<Version>, later: nat)
    requires Valid(s) && s.now <= later && |added| <= 1 && (added != [] ==> added[0].since == s.now)
    ensures Valid(s.(versions := s.versions + added, now := later))
  {
    hide Sourced, RequestValid;
    forall k | k in s.cache ensures Sourced(s.versions + added, k, s.cache[k].actions, s.cache[k].origin) {
      SourcedLater(s.versions, added, k, s.cache[k].actions, s.cache[k].origin, later);
    }
    forall i | i in s.requests ensures RequestValid(s.requests[i], s.versions + added, later) {
      RequestLater(s.requests[i], s.versions, added, s.now, later);
    }
  }

  lemma CurrentIsInForce(s: State, began: nat)
    requires VersionsValid(s.versions, s.now) && began <= s.now
    ensures InForce(s.versions, |s.versions| - 1, began, s.now)
  {
  }

  lemma RequestStepKeepsValid(s: State, i: nat, stage: Stage)
    requires Valid(s) && i in s.requests && RequestValid(s.requests[i].(stage := stage), s.versions, s.now)
    ensures Valid(With(s, i, stage))
  {
  }

  lemma LookKeepsValid(s: State, i: nat)
    requires Valid(s)
    ensures Valid(Step(s, Look(i)))
  {
    if i in s.requests && s.requests[i].stage.Started? {
      assert RequestValid(s.requests[i], s.versions, s.now);
      if Fresh(s.cache, s.requests[i].key, s.now) {
        var e := s.cache[s.requests[i].key];
        RequestStepKeepsValid(s, i, Answered(e.actions, e.origin, s.now));
      } else {
        RequestStepKeepsValid(s, i, Loading(s.now));
      }
    }
  }

  lemma LoadDirectKeepsValid(s: State, i: nat)
    requires Valid(s)
    ensures Valid(Step(s, LoadDirect(i)))
  {
    if i in s.requests && s.requests[i].stage.Loading? {
      var r := s.requests[i];
      assert RequestValid(r, s.versions, s.now);
      hide Valid, DirectIds, GroupIds, ActionsOf;
      CurrentIsInForce(s, r.stage.began);
      RequestStepKeepsValid(s, i, HasDirect(r.stage.began, DirectIds(Current(s), r.key.subject), |s.versions| - 1));
    }
  }

  lemma LoadGroupKeepsValid(s: State, i: nat)
    requires Valid(s)
    ensures Valid(Step(s, LoadGroup(i)))
  {
    if i in s.requests && s.requests[i].stage.HasDirect? {
      var r := s.requests[i];
      assert RequestValid(r, s.versions, s.now);
      hide Valid, DirectIds, GroupIds, ActionsOf;
      CurrentIsInForce(s, r.stage.began);
      RequestStepKeepsValid(s, i, HasPolicies(r.stage.began, r.stage.ids + GroupIds(Current(s), r.key.subject), r.stage.v1, |s.versions| - 1));
    }
  }

  lemma LoadPermissionsKeepsValid(s: State, i: nat)
    requires Valid(s)
    ensures Valid(Step(s, LoadPermissions(i)))
  {
    if i in s.requests && s.requests[i].stage.HasPolicies? {
      var r := s.requests[i];
      assert RequestValid(r, s.versions, s.now);
      hide Valid, DirectIds, GroupIds, ActionsOf;
      CurrentIsInForce(s, r.stage.began);
      NoPoliciesNoActions(Current(s), r.key.resource);
      var actions := ActionsOf(Current(s), r.stage.ids, r.key.resource);
      RequestStepKeepsValid(s, i, HasActions(r.stage.began, actions, r.stage.v1, r.stage.v2, |s.versions| - 1));
    }
  }

  lemma NoPoliciesNoActions(t: Tables, resource: Resource)
    ensures ActionsOf(t, {}, resource) == {}
  {
  }

  lemma StoreKeepsValid(s: State, i: nat)
    requires Valid(s)
    ensures Valid(Step(s, Store(i)))
  {
    hide Sourced;
    if i in s.requests {
      assert RequestValid(s.requests[i], s.versions, s.now);
    }
  }

  lemma PruneKeepsValid(s: State, a: Action)
    requires Valid(s) && (a.CollectStale? || a.RemoveStale?)
    ensures Valid(Step(s, a))
  {
    hide RequestValid, Sourced, Stale;
  }

  lemma AskKeepsValid(s: State, a: Action)
    requires Valid(s) && (a.AskUser? || a.AskToken?)
    ensures Valid(Step(s, a))
  {
    hide Sourced;
  }

  lemma StepKeepsValid(s: State, a: Action)
    requires Valid(s)
    ensures Valid(Step(s, a))
  {
    hide Valid;
    match a
    case Change(tables) => TimePasses(s, [Version(tables, s.now)], s.now);
    case Wait(time) =>
      assert s.versions + [] == s.versions;
      TimePasses(s, [], s.now + time);
    case Look(i) => LookKeepsValid(s, i);
    case LoadDirect(i) => LoadDirectKeepsValid(s, i);
    case LoadGroup(i) => LoadGroupKeepsValid(s, i);
    case LoadPermissions(i) => LoadPermissionsKeepsValid(s, i);
    case Store(i) => StoreKeepsValid(s, i);
    case CollectStale => PruneKeepsValid(s, a);
    case RemoveStale(_) => PruneKeepsValid(s, a);
    case _ => AskKeepsValid(s, a);
  }

  function Initial(tables: Tables): State { State(0, [Version(tables, 0)], map[], map[], multiset{}) }

  function Run(tables: Tables, schedule: seq<Action>): (s: State)
    ensures s.versions != []
  {
    if schedule == [] then Initial(tables) else Step(Run(tables, schedule[..|schedule| - 1]), schedule[|schedule| - 1])
  }

  lemma {:induction false} RunIsValid(tables: Tables, schedule: seq<Action>)
    ensures Valid(Run(tables, schedule))
  {
    if schedule != [] {
      RunIsValid(tables, schedule[..|schedule| - 1]);
      StepKeepsValid(Run(tables, schedule[..|schedule| - 1]), schedule[|schedule| - 1]);
    }
  }

  // ---------------------------------------------------------------- what every run guarantees

  /** Every answer, cached or not and however loaders race, is what the statements of one load gave.
      That load ended at most 60 seconds before the answer, and each of its statements saw tables
      that were in force while it ran. */
  lemma AnswersAreRecent(tables: Tables, schedule: seq<Action>, i: nat)
    requires var s := Run(tables, schedule); i in s.requests && s.requests[i].stage.Answered?
    ensures var s := Run(tables, schedule); var r := s.requests[i]; var o := r.stage.origin;
            && o.began <= o.ended <= r.stage.at <= o.ended + TTL
            && Sourced(s.versions, r.key, r.stage.actions, o)
  {
    RunIsValid(tables, schedule);
    var s := Run(tables, schedule);
    assert RequestValid(s.requests[i], s.versions, s.now);
  }

  /** The policies of a subject as the first two statements of a load saw them are its policies in the
      tables that the third one saw. */
  predicate SamePolicies(a: Tables, b: Tables, c: Tables, subject: Subject)
  {
    DirectIds(a, subject) + GroupIds(b, subject) == DirectIds(c, subject) + GroupIds(c, subject)
  }

  /** A load gives what the tables gave at its last statement, whatever permissions these hold, if and
      only if the policies of the subject were the same by then. */
  lemma LoadIsExact(a: Tables, b: Tables, c: Tables, k: Key)
    ensures (forall p: set<Permission> :: Loaded(a, b, c.(permissions := p), k) == Granted(c.(permissions := p), k))
            <==> SamePolicies(a, b, c, k.subject)
  {
    var ids := DirectIds(a, k.subject) + GroupIds(b, k.subject);
    var now := DirectIds(c, k.subject) + GroupIds(c, k.subject);
    assert forall p: set<Permission> :: DirectIds(c.(permissions := p), k.subject) + GroupIds(c.(permissions := p), k.subject) == now;
    if ids != now {
      var id :| id in ids + now && !(id in ids && id in now);
      var one := Permission(id, k.resource, "action");
      assert one in c.(permissions := {one}).permissions;
      assert "action" in Loaded(a, b, c.(permissions := {one}), k) <==> id in ids;
      assert "action" in Granted(c.(permissions := {one}), k) <==> id in now;
    }
  }

  /** In every run, an answer is what the tables gave at one instant of its load if the policies of its
      subject did not change between the statements of that load, whatever else changed meanwhile. */
  lemma UndisturbedAnswersAreExact(tables: Tables, schedule: seq<Action>, i: nat)
    requires var s := Run(tables, schedule);
             i in s.requests && s.requests[i].stage.Answered? &&
             var o := s.requests[i].stage.origin;
             o.direct < |s.versions| && o.viaGroup < |s.versions| && o.permissions < |s.versions| &&
             SamePolicies(s.versions[o.direct].tables, s.versions[o.viaGroup].tables, s.versions[o.permissions].tables,
                          s.requests[i].key.subject)
    ensures var s := Run(tables, schedule); var r := s.requests[i]; var o := r.stage.origin;
            && InForce(s.versions, o.permissions, o.began, o.ended)
            && r.stage.actions == Granted(s.versions[o.permissions].tables, r.key)
            && r.stage.at <= o.ended + TTL
  {
    hide Run, InForce;
    AnswersAreRecent(tables, schedule, i);
  }

  // ---------------------------------------------------------------- the group of the user

  /** The request of user `uid` when the tables are `t`. */
  function KeyOf(t: Tables, uid: int, resource: Resource): Key
  {
    Key(User(uid, if uid in t.groups then Some(t.groups[uid]) else None), resource)
  }

  lemma StepKeepsKeys(s: State, a: Action, i: nat)
    requires s.versions != [] && i in s.requests
    ensures i in Step(s, a).requests && Step(s, a).requests[i].key == s.requests[i].key
  {
  }

  lemma {:induction false} RunKeepsKeys(tables: Tables, before: seq<Action>, after: seq<Action>, i: nat)
    requires i in Run(tables, before).requests
    ensures i in Run(tables, before + after).requests
    ensures Run(tables, before + after).requests[i].key == Run(tables, before).requests[i].key
  {
    hide Step;
    if after == [] {
      assert before + after == before;
    } else {
      var last := |after| - 1;
      RunKeepsKeys(tables, before, after[..last], i);
      assert (before + after)[..|before| + last] == before + after[..last];
      StepKeepsKeys(Run(tables, before + after[..last]), after[last], i);
    }
  }

  /** A change of group takes effect at once: whatever happens before and after, a user who asks is
      answered for the group that the tables name at the moment of asking, never from what is cached
      for another group. */
  lemma GroupChangeIsImmediate(tables: Tables, before: seq<Action>, i: nat, uid: int, resource: Resource, after: seq<Action>)
    requires i !in Run(tables, before).requests
    ensures var s := Run(tables, before + [AskUser(i, uid, resource)] + after);
            var k := KeyOf(Current(Run(tables, before)), uid, resource);
            && i in s.requests && s.requests[i].key == k
            && (s.requests[i].stage.Answered? ==>
                  var o := s.requests[i].stage.origin;
                  && o.ended <= s.requests[i].stage.at <= o.ended + TTL
                  && Sourced(s.versions, k, s.requests[i].stage.actions, o))
  {
    var asked := before + [AskUser(i, uid, resource)];
    assert asked[..|before|] == before;
    assert i in Run(tables, asked).requests;
    RunKeepsKeys(tables, asked, after, i);
    if Run(tables, asked + after).requests[i].stage.Answered? {
      hide Run;
      AnswersAreRecent(tables, asked + after, i);
    }
  }

  // ---------------------------------------------------------------- no single instant

  /** A user loses a policy while, under that policy, an action becomes permitted. */
  function Before(uid: int, policy: int): Tables { Tables(map[], {Assignment(UserSubject, uid, policy)}, {}) }

  function After(policy: int, action: string): Tables { Tables(map[], {}, {Permission(policy, Global, action)}) }

  /** The load of separate statements can grant what no instant of the tables granted. */
  lemma TornLoadGrantsTooMuch(uid: int, policy: int, action: string)
    ensures var s := Torn(uid, policy, action);
            && 0 in s.requests && s.requests[0].stage.Answered?
            && HasPermission(s.requests[0].stage.actions, action)
            && forall v :: 0 <= v < |s.versions| ==> Granted(s.versions[v].tables, s.requests[0].key) == {}
  {
    var k := Key(User(uid, None), Global);
    var s0 := Initial(Before(uid, policy));
    var s1 := Step(s0, AskUser(0, uid, Global));
    assert s1.requests == map[0 := Request(k, 0, Started)];
    var s2 := Step(s1, Look(0));
    assert s2.requests[0] == Request(k, 0, Loading(0));
    var s3 := Step(s2, LoadDirect(0));
    assert Assignment(UserSubject, uid, policy) in Before(uid, policy).assignments;
    assert policy in DirectIds(Before(uid, policy), k.subject);
    var s5 := Step(Step(s3, LoadGroup(0)), Change(After(policy, action)));
    assert policy in s5.requests[0].stage.ids;
    var s6 := Step(s5, LoadPermissions(0));
    assert Permission(policy, Global, action) in After(policy, action).permissions;
    assert action in s6.requests[0].stage.actions;
    assert s6.versions == [Version(Before(uid, policy), 0), Version(After(policy, action), 0)];
  }

  function Torn(uid: int, policy: int, action: string): State
  {
    var s := Step(Step(Step(Step(Initial(Before(uid, policy)), AskUser(0, uid, Global)), Look(0)), LoadDirect(0)), LoadGroup(0));
    Step(Step(Step(s, Change(After(policy, action))), LoadPermissions(0)), Store(0))
  }

  // ---------------------------------------------------------------- pruning

  /** Pruning at one moment changes no answer then or later: what goes is long past its time. */
  lemma PruningChangesNoAnswer(cache: map<Key, Entry>, k: Key, now: nat, later: nat)
    requires now <= later
    ensures var left := cache - Stale(cache, now);
            && (Fresh(left, k, later) <==> Fresh(cache, k, later))
            && (Fresh(left, k, later) ==> left[k] == cache[k])
            && left.Keys <= cache.Keys
  {
  }

  /** A load of `k` ends, and is stored, while `k` waits to be removed. */
  predicate StoresMarked(s: State, a: Action, k: Key)
  {
    a.Store? && a.request in s.requests && s.requests[a.request].stage.HasActions? && s.requests[a.request].key == k && k in s.pruning
  }

  /** That happens at step `q` of the schedule, at time `at`. */
  ghost predicate StoredWhileMarked(tables: Tables, schedule: seq<Action>, k: Key, q: nat, at: nat)
  {
    q < |schedule| && StoresMarked(Run(tables, schedule[..q]), schedule[q], k) && Run(tables, schedule[..q]).now == at
  }

  /** No pruning has removed `k` after step `q`. */
  predicate Kept(schedule: seq<Action>, k: Key, q: nat)
  {
    forall r :: q < r < |schedule| ==> schedule[r] != RemoveStale(k)
  }

  /** A marked entry is long past its time, or it was stored again after it had been marked. */
  ghost predicate MarksKnown(tables: Tables, schedule: seq<Action>, k: Key)
  {
    var s := Run(tables, schedule);
    k in s.pruning && k in s.cache ==>
      || s.cache[k].cachedAt + PRUNE_AGE < s.now
      || exists q: nat :: StoredWhileMarked(tables, schedule, k, q, s.cache[k].cachedAt) && Kept(schedule, k, q)
  }

  lemma MarkedBefore(s: State, a: Action, k: Key)
    requires s.versions != []
    requires var t := Step(s, a); k in t.pruning && k in t.cache && t.cache[k].cachedAt + PRUNE_AGE >= t.now
    ensures var t := Step(s, a);
            if StoresMarked(s, a, k) then t.cache[k].cachedAt == s.now
            else k in s.pruning && k in s.cache && s.cache[k] == t.cache[k] && s.cache[k].cachedAt + PRUNE_AGE >= s.now &&
                 a != RemoveStale(k)
  {
  }

  lemma {:induction false} MarksAreKnown(tables: Tables, schedule: seq<Action>, k: Key)
    ensures MarksKnown(tables, schedule, k)
  {
    hide Step, StoresMarked;
    if schedule != [] {
      var last := |schedule| - 1;
      var before := schedule[..last];
      var s, t := Run(tables, before), Run(tables, schedule);
      MarksAreKnown(tables, before, k);
      if k in t.pruning && k in t.cache && t.cache[k].cachedAt + PRUNE_AGE >= t.now {
        MarkedBefore(s, schedule[last], k);
        if StoresMarked(s, schedule[last], k) {
          assert StoredWhileMarked(tables, schedule, k, last, t.cache[k].cachedAt) && Kept(schedule, k, last);
        } else {
          var q: nat :| StoredWhileMarked(tables, before, k, q, s.cache[k].cachedAt) && Kept(before, k, q);
          assert before[..q] == schedule[..q] && StoredWhileMarked(tables, schedule, k, q, t.cache[k].cachedAt);
          assert Kept(schedule, k, q);
        }
      }
    }
  }

  /** Since a store at time `from`, `k` is cached, and no older than that. */
  predicate StoredSince(s: State, k: Key, from: nat)
  {
    from <= s.now && k in s.cache && from <= s.cache[k].cachedAt
  }

  lemma StepStaysStored(s: State, a: Action, k: Key, from: nat)
    requires s.versions != [] && Step(s, a).now <= from + TTL && a != RemoveStale(k)
    requires StoredSince(s, k, from) || (StoresMarked(s, a, k) && from == s.now)
    ensures StoredSince(Step(s, a), k, from)
  {
  }

  lemma TimeAdvances(s: State, a: Action)
    requires s.versions != []
    ensures s.now <= Step(s, a).now
  {
  }

  lemma {:induction false} StoredStays(tables: Tables, schedule: seq<Action>, k: Key, q: nat, from: nat)
    requires StoredWhileMarked(tables, schedule, k, q, from) && Kept(schedule, k, q) && Run(tables, schedule).now <= from + TTL
    ensures StoredSince(Run(tables, schedule), k, from)
    decreases |schedule|
  {
    hide Step;
    var last := |schedule| - 1;
    var before := schedule[..last];
    TimeAdvances(Run(tables, before), schedule[last]);
    if q < last {
      assert before[..q] == schedule[..q];
      StoredStays(tables, before, k, q, from);
    }
    StepStaysStored(Run(tables, before), schedule[last], k, from);
  }

  /** Pruning takes a fresh entry away exactly when it races with a load: the key was stored again
      after it had been marked as stale, no other pruning has removed it since, and it is removed
      within 60 seconds of that. */
  lemma PruningLosesExactlyRaces(tables: Tables, schedule: seq<Action>, k: Key)
    requires k in Run(tables, schedule).pruning
    ensures var s := Run(tables, schedule);
            Fresh(s.cache, k, s.now) <==>
            exists q: nat, at: nat :: StoredWhileMarked(tables, schedule, k, q, at) && Kept(schedule, k, q) && s.now <= at + TTL
  {
    var s := Run(tables, schedule);
    MarksAreKnown(tables, schedule, k);
    if q: nat, at: nat :| StoredWhileMarked(tables, schedule, k, q, at) && Kept(schedule, k, q) && s.now <= at + TTL {
      StoredStays(tables, schedule, k, q, at);
    }
  }

  lemma RunStep(tables: Tables, before: seq<Action>, a: Action)
    ensures Run(tables, before + [a]) == Step(Run(tables, before), a)
  {
    assert (before + [a])[..|before|] == before;
  }

  function TokenKey(token: int): Key { Key(ServiceToken(token), Global) }

  /** A service token is checked, and nothing comes in between. */
  function Ask(i: nat, token: int): seq<Action>
  {
    [AskToken(i, token, Global), Look(i), LoadDirect(i), LoadGroup(i), LoadPermissions(i), Store(i)]
  }

  /** The permissions of `k` have been loaded and stored; nothing else has changed. */
  predicate Stored(s: State, t: State, i: nat, k: Key)
  {
    && t.now == s.now && t.versions == s.versions && t.pruning == s.pruning && t.requests.Keys == s.requests.Keys + {i}
    && k in t.cache && t.cache == s.cache[k := t.cache[k]] && t.cache[k].cachedAt == s.now
  }

  /** The request is one stage further; nothing else has changed. */
  predicate Further(s: State, t: State, i: nat)
  {
    i in s.requests && i in t.requests && t == s.(requests := t.requests) && t.requests.Keys == s.requests.Keys &&
    t.requests[i].key == s.requests[i].key
  }

  lemma LoadsThrough(s: State, i: nat)
    requires s.versions != [] && i in s.requests && s.requests[i].stage.Started? && !Fresh(s.cache, s.requests[i].key, s.now)
    ensures var t := Step(Step(Step(Step(s, Look(i)), LoadDirect(i)), LoadGroup(i)), LoadPermissions(i));
            Further(s, t, i) && t.requests[i].stage.HasActions?
  {
    LooksFurther(s, i);
    var s1 := Step(s, Look(i));
    LoadsFurther(s1, i);
    var s2 := Step(s1, LoadDirect(i));
    LoadsFurther(s2, i);
    var s3 := Step(s2, LoadGroup(i));
    LoadsFurther(s3, i);
    hide Step;
  }

  lemma LooksFurther(s: State, i: nat)
    requires s.versions != [] && i in s.requests && s.requests[i].stage.Started? && !Fresh(s.cache, s.requests[i].key, s.now)
    ensures Further(s, Step(s, Look(i)), i) && Step(s, Look(i)).requests[i].stage.Loading?
  {
  }

  lemma LoadsFurther(s: State, i: nat)
    requires s.versions != [] && i in s.requests
    ensures s.requests[i].stage.Loading? ==> Further(s, Step(s, LoadDirect(i)), i) && Step(s, LoadDirect(i)).requests[i].stage.HasDirect?
    ensures s.requests[i].stage.HasDirect? ==> Further(s, Step(s, LoadGroup(i)), i) && Step(s, LoadGroup(i)).requests[i].stage.HasPolicies?
    ensures s.requests[i].stage.HasPolicies? ==>
              Further(s, Step(s, LoadPermissions(i)), i) && Step(s, LoadPermissions(i)).requests[i].stage.HasActions?
  {
    hide DirectIds, GroupIds, ActionsOf;
  }

  lemma AskStarts(s: State, i: nat, token: int)
    requires s.versions != [] && i !in s.requests
    ensures Step(s, AskToken(i, token, Global)) == s.(requests := s.requests[i := Request(TokenKey(token), |s.versions| - 1, Started)])
  {
  }

  lemma StoreEnds(s: State, i: nat)
    requires s.versions != [] && i in s.requests && s.requests[i].stage.HasActions?
    ensures Stored(s, Step(s, Store(i)), i, s.requests[i].key)
  {
  }

  lemma AskStores(tables: Tables, before: seq<Action>, i: nat, token: int)
    requires var s := Run(tables, before); i !in s.requests && !Fresh(s.cache, TokenKey(token), s.now)
    ensures Stored(Run(tables, before), Run(tables, before + Ask(i, token)), i, TokenKey(token))
  {
    hide Run, Step;
    var s := Run(tables, before);
    var asked := before + [AskToken(i, token, Global)];
    AskStarts(s, i, token);
    RunStep(tables, before, AskToken(i, token, Global));
    LoadsThrough(Run(tables, asked), i);
    RunStep(tables, asked, Look(i));
    RunStep(tables, asked + [Look(i)], LoadDirect(i));
    RunStep(tables, asked + [Look(i)] + [LoadDirect(i)], LoadGroup(i));
    RunStep(tables, asked + [Look(i)] + [LoadDirect(i)] + [LoadGroup(i)], LoadPermissions(i));
    var loaded := asked + [Look(i)] + [LoadDirect(i)] + [LoadGroup(i)] + [LoadPermissions(i)];
    RunStep(tables, loaded, Store(i));
    StoreEnds(Run(tables, loaded), i);
    assert before + Ask(i, token) == loaded + [Store(i)];
  }

  /** The first `n` tokens are checked, one after the other. */
  function Filling(n: nat): seq<Action> { if n == 0 then [] else Filling(n - 1) + Ask(n - 1, n - 1) }

  /** `n` tokens are cached, the first among them, all at time zero. */
  ghost predicate Filled(s: State, n: nat)
  {
    && s.now == 0 && s.pruning == multiset{} && |s.cache| == n
    && (n > 0 ==> TokenKey(0) in s.cache)
    && (forall i :: i in s.requests ==> i < n)
    && (forall k :: k in s.cache ==> k.subject.ServiceToken? && k.subject.token < n && s.cache[k].cachedAt == 0)
  }

  lemma OneMoreFilled(s: State, t: State, n: nat)
    requires Filled(s, n) && Stored(s, t, n, TokenKey(n))
    ensures Filled(t, n + 1)
  {
    FilledHasNoOther(s, n);
    OneMoreKey(s.cache, t.cache, TokenKey(n));
    forall i | i in t.requests ensures i < n + 1 {
      assert i in s.requests.Keys + {n};
    }
  }

  lemma OneMoreKey(before: map<Key, Entry>, after: map<Key, Entry>, k: Key)
    requires k !in before && k in after && after == before[k := after[k]]
    ensures |after| == |before| + 1
  {
    assert after.Keys == before.Keys + {k};
  }

  lemma {:induction false} FillingFills(tables: Tables, n: nat)
    ensures Filled(Run(tables, Filling(n)), n)
  {
    if n > 0 {
      FillingFills(tables, n - 1);
      FilledHasNoOther(Run(tables, Filling(n - 1)), n - 1);
      AskStores(tables, Filling(n - 1), n - 1, n - 1);
      OneMoreFilled(Run(tables, Filling(n - 1)), Run(tables, Filling(n)), n - 1);
      hide Filled, Stored, Step, Ask;
    }
  }

  lemma FilledHasNoOther(s: State, n: nat)
    requires Filled(s, n)
    ensures n !in s.requests && TokenKey(n) !in s.cache
  {
  }

  /** The cache has grown beyond its bound and its entries are old: pruning marks the first of them. */
  lemma MarksTheFirst(s: State)
    requires s.versions != [] && Filled(s, PRUNE_SIZE + 1)
    ensures var t := Step(Step(s, Wait(PRUNE_AGE + 1)), CollectStale);
            TokenKey(0) in t.pruning && PRUNE_SIZE + 1 !in t.requests && !Fresh(t.cache, TokenKey(0), t.now)
  {
    var t := Step(s, Wait(PRUNE_AGE + 1));
    assert TokenKey(0) in Stale(t.cache, t.now);
  }

  lemma StoredIsRemoved(s: State, t: State, i: nat, k: Key)
    requires t.versions != [] && Stored(s, t, i, k) && k in s.pruning
    ensures k in t.pruning && Fresh(t.cache, k, t.now) && k !in Step(t, RemoveStale(k)).cache
  {
  }

  /** The cache is filled and grows old. A pruning marks the entries, and before it removes the first
      one, that one is loaded and stored again. */
  function Racing(): seq<Action>
  {
    Filling(PRUNE_SIZE + 1) + [Wait(PRUNE_AGE + 1)] + [CollectStale] + Ask(PRUNE_SIZE + 1, 0)
  }

  /** So there is a run in which pruning takes a fresh entry away. */
  lemma PruningTakesFreshEntry(tables: Tables)
    ensures var s := Run(tables, Racing()); var k := TokenKey(0);
            k in s.pruning && Fresh(s.cache, k, s.now) && k !in Run(tables, Racing() + [RemoveStale(k)]).cache
  {
    hide Run, Filling, Ask, Step, Stored, Filled, Fresh;
    var filled := Filling(PRUNE_SIZE + 1);
    var marked := filled + [Wait(PRUNE_AGE + 1)] + [CollectStale];
    FillingFills(tables, PRUNE_SIZE + 1);
    RunStep(tables, filled, Wait(PRUNE_AGE + 1));
    RunStep(tables, filled + [Wait(PRUNE_AGE + 1)], CollectStale);
    MarksTheFirst(Run(tables, filled));
    AskStores(tables, marked, PRUNE_SIZE + 1, 0);
    RunStep(tables, Racing(), RemoveStale(TokenKey(0)));
    StoredIsRemoved(Run(tables, marked), Run(tables, Racing()), PRUNE_SIZE + 1, TokenKey(0));
  }

  /** After a removal that raced, the next request loads, and the answer it gets, however the run goes
      on, is as recent as any. */
  lemma RacedRemovalReloads(tables: Tables, before: seq<Action>, k: Key, i: nat, after: seq<Action>)
    requires var s := Run(tables, before);
             k in s.pruning && i in s.requests && s.requests[i].key == k && s.requests[i].stage.Started?
    ensures var removed := before + [RemoveStale(k), Look(i)];
            var s := Run(tables, removed + after);
            && i in Run(tables, removed).requests
            && Run(tables, removed).requests[i].stage == Loading(Run(tables, before).now)
            && i in s.requests && s.requests[i].key == k
            && (s.requests[i].stage.Answered? ==>
                  var o := s.requests[i].stage.origin;
                  && Run(tables, before).now <= o.began
                  && o.ended <= s.requests[i].stage.at <= o.ended + TTL
                  && Sourced(s.versions, k, s.requests[i].stage.actions, o))
  {
    var removed := before + [RemoveStale(k), Look(i)];
    assert removed[..|before| + 1] == before + [RemoveStale(k)];
    assert (before + [RemoveStale(k)])[..|before|] == before;
    LoadedSince(tables, removed, after, i, Run(tables, before).now);
    RunKeepsKeys(tables, removed, after, i);
    if Run(tables, removed + after).requests[i].stage.Answered? {
      hide Run;
      AnswersAreRecent(tables, removed + after, i);
    }
  }

  /** The request loads for itself, since `from`. */
  predicate LoadsSince(r: Request, from: nat)
  {
    match r.stage
    case Started => false
    case Answered(_, origin, _) => from <= origin.began
    case loading => from <= loading.began
  }

  lemma StepLoads(s: State, a: Action, i: nat, from: nat)
    requires s.versions != [] && i in s.requests && LoadsSince(s.requests[i], from)
    ensures i in Step(s, a).requests && LoadsSince(Step(s, a).requests[i], from)
  {
  }

  lemma {:induction false} LoadedSince(tables: Tables, before: seq<Action>, after: seq<Action>, i: nat, from: nat)
    requires i in Run(tables, before).requests && LoadsSince(Run(tables, before).requests[i], from)
    ensures i in Run(tables, before + after).requests && LoadsSince(Run(tables, before + after).requests[i], from)
  {
    hide Step, LoadsSince;
    if after == [] {
      assert before + after == before;
    } else {
      var last := |after| - 1;
      LoadedSince(tables, before, after[..last], i, from);
      assert (before + after)[..|before| + last] == before + after[..last];
      StepLoads(Run(tables, before + after[..last]), after[last], i, from);
    }
  }

  class PermissionStore {
    var entries: map<Key, Entry>

    constructor ()
      ensures entries == map[]
    {
      entries := map[];
    }

    /** The entries to remove are collected first and removed one by one. */
    method PruneStaleEntries(now: nat)
      modifies this
      ensures entries == old(entries) - Stale(old(entries), now)
    {
      if |entries| <= PRUNE_SIZE { return; }
      var stale := set k | k in entries && entries[k].cachedAt + PRUNE_AGE < now;
      var left := stale;
      while left != {}
        invariant left <= stale
        invariant entries == old(entries) - (stale - left)
        decreases |left|
      {
        var key :| key in left;
        entries := entries - {key};
        left := left - {key};
      }
    }

    /** A lookup that nothing interrupts: `loaded` is what the statements gave, if they had to run. */
    method LoadCachedActions(key: Key, now: nat, loaded: set<string>, origin: Origin) returns (actions: set<string>)
      modifies this
      ensures Fresh(old(entries), key, now) ==> actions == old(entries)[key].actions && entries == old(entries)
      ensures !Fresh(old(entries), key, now) ==>
                && actions == loaded
                && key in entries && entries[key] == Entry(loaded, now, origin)
                && forall k :: k != key ==> (Fresh(entries, k, now) <==> Fresh(old(entries), k, now))
    {
      if key in entries && now <= entries[key].cachedAt + TTL {
        return entries[key].actions;
      }
      actions := loaded;
      entries := entries[key := Entry(actions, now, origin)];
      PruneStaleEntries(now);
    }
  }
}

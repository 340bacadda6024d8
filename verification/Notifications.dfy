/** The notification store of the service worker (pwa/public/serviceWorker.js): pushes, closes and
    session changes run one after the other. The worker may be killed and started again, and a write to
    its database may fail, which ends the handler and lets the next one run. What was shown and what was
    read is remembered per account for thirty days. Only messages with a valid id are modelled; the
    others are neither deduplicated nor compared with read marks. */
module Notifications {
  import opened Json

  const RETENTION: nat := 30 * 24 * 60 * 60 * 1000

  /** A message of an account, and a scope (a chat or a thread) of an account. */
  datatype MessageKey = MessageKey(uid: nat, id: nat)
  datatype ScopeKey = ScopeKey(uid: nat, scope: string)

  datatype Mark = Mark(through: nat, expiresAt: nat)

  /** A notification on the screen. Its tag is the message id. */
  datatype Note = Note(uid: nat, scope: string, id: nat)
  datatype Showing = Showing(key: MessageKey, scope: string, at: nat)

  datatype Worker = Down | Idle | Busy(key: MessageKey)

  /** `shown` is history: what was shown, and when. */
  datatype State = State(
    worker: Worker, account: Option<nat>, now: nat,
    seen: map<MessageKey, nat>, marks: map<ScopeKey, Mark>, open: set<Note>, shown: seq<Showing>)

  /** `RememberFails` and `CloseInterrupted` are handlers cut short, by the end of the worker (`killed`) or
      by a failed write: a message has been shown and is not remembered, or a mark has been stored and
      only `done` has been remembered and `closed` closed. */
  datatype Action =
    | Push(scope: string, id: nat, suppress: bool)
    | Remember
    | RememberFails
    | CloseUpTo(target: string, through: Option<nat>, ids: set<nat>, all: bool)
    | CloseInterrupted(target: string, through: Option<nat>, ids: set<nat>, all: bool, done: set<nat>, closed: set<Note>, killed: bool)
    | SwitchSession(uid: Option<nat>)
    | Dismiss(note: Note)
    | Kill
    | Restart
    | Wait(time: nat)

  const INITIAL := State(Idle, None, 0, map[], map[], {}, [])

  // ---------------------------------------------------------------- steps

  predicate Unexpired(expiresAt: nat, now: nat) { expiresAt > now }

  predicate Seen(s: State, k: MessageKey) { k in s.seen && Unexpired(s.seen[k], s.now) }

  /** The unexpired read mark of a scope covers the message. */
  predicate ReadAlready(s: State, k: ScopeKey, id: nat)
  {
    k in s.marks && Unexpired(s.marks[k].expiresAt, s.now) && id <= s.marks[k].through
  }

  function Remembered(s: State, keys: set<MessageKey>): State
  {
    s.(seen := map k | k in s.seen.Keys + keys :: if k in keys then s.now + RETENTION else s.seen[k])
  }

  /** A notification with the same tag is replaced. */
  function Show(s: State, n: Note): State
  {
    var k := MessageKey(n.uid, n.id);
    s.(worker := Busy(k), open := (set o | o in s.open && o.id != n.id) + {n}, shown := s.shown + [Showing(k, n.scope, s.now)])
  }

  function Pushing(s: State, uid: nat, scope: string, id: nat, suppress: bool): State
  {
    if Seen(s, MessageKey(uid, id)) || ReadAlready(s, ScopeKey(uid, scope), id) then s
    else if suppress then Remembered(s, {MessageKey(uid, id)})
    else Show(s, Note(uid, scope, id))
  }

  /** The stored mark never moves back, even an expired one. */
  function Raised(s: State, k: ScopeKey, through: Option<nat>): State
  {
    if through.None? then s
    else
      var kept := if k in s.marks && s.marks[k].through > through.value then s.marks[k].through else through.value;
      s.(marks := s.marks[k := Mark(kept, s.now + RETENTION)])
  }

  predicate Closes(n: Note, scope: string, through: Option<nat>, ids: set<nat>, all: bool)
  {
    all || n.id in ids || (n.scope == scope && through.Some? && n.id <= through.value)
  }

  function Own(uid: nat, ids: set<nat>): set<MessageKey> { set id | id in ids :: MessageKey(uid, id) }

  function IdsOf(notes: set<Note>): set<nat> { set n | n in notes :: n.id }

  function ToClose(s: State, scope: string, through: Option<nat>, ids: set<nat>, all: bool): set<Note>
  {
    set n | n in s.open && Closes(n, scope, through, ids, all)
  }

  /** The mark is stored, then messages are remembered, then each notification is remembered and closed.
      Closing remembers messages under the current account, whoever the notification was for. */
  function Closing(s: State, uid: nat, scope: string, through: Option<nat>, remembered: set<nat>, closed: set<Note>): State
  {
    Remembered(Raised(s, ScopeKey(uid, scope), through), Own(uid, remembered + IdsOf(closed))).(open := s.open - closed)
  }

  /** Another account closes every notification; the remaining ones are remembered. */
  function Switching(s: State, uid: Option<nat>): State
  {
    var t := if s.account != uid then s.(account := uid, open := {}) else s;
    if uid.Some? then Remembered(t, Own(uid.value, IdsOf(t.open))) else t
  }

  function OwnNotes(s: State, uid: nat): set<Note> { set n | n in s.open && n.uid == uid }

  /** Expired records go, and what is still on the screen is remembered. */
  function Restarting(s: State): State
  {
    var t := s.(worker := Idle,
                seen := map k | k in s.seen && Unexpired(s.seen[k], s.now) :: s.seen[k],
                marks := map k | k in s.marks && Unexpired(s.marks[k].expiresAt, s.now) :: s.marks[k]);
    if s.account.Some? then Remembered(t, Own(s.account.value, IdsOf(OwnNotes(s, s.account.value)))) else t
  }

  predicate Ready(s: State) { s.worker.Idle? && s.account.Some? }

  function Step(s: State, a: Action): State
  {
    match a
    case Push(scope, id, suppress) => if Ready(s) then Pushing(s, s.account.value, scope, id, suppress) else s
    case Remember => if s.worker.Busy? then Remembered(s, {s.worker.key}).(worker := Idle) else s
    case RememberFails => if s.worker.Busy? then s.(worker := Idle) else s
    case CloseUpTo(scope, through, ids, all) =>
      if Ready(s) then Closing(s, s.account.value, scope, through, ids, ToClose(s, scope, through, ids, all)) else s
    case CloseInterrupted(scope, through, ids, all, done, closed, killed) =>
      if !Ready(s) then s
      else
        var covered := ToClose(s, scope, through, ids, all);
        Closing(s, s.account.value, scope, through, done * (ids + IdsOf(covered)), closed * covered)
          .(worker := if killed then Down else Idle)
    case SwitchSession(uid) => if s.worker.Idle? then Switching(s, uid) else s
    case Dismiss(note) => s.(open := s.open - {note})
    case Kill => s.(worker := Down)
    case Restart => if s.worker.Down? then Restarting(s) else s
    case Wait(time) => s.(now := s.now + time)
  }

  function Run(schedule: seq<Action>): State
  {
    if schedule == [] then INITIAL else Step(Run(schedule[..|schedule| - 1]), schedule[|schedule| - 1])
  }

  // ---------------------------------------------------------------- invariant

  /** The notifications on the screen belong to the account. */
  ghost predicate Valid(s: State) { forall n :: n in s.open ==> s.account == Some(n.uid) }

  lemma StepKeepsValid(s: State, a: Action)
    requires Valid(s)
    ensures Valid(Step(s, a))
  {
  }

  lemma {:induction false} RunIsValid(schedule: seq<Action>)
    ensures Valid(Run(schedule))
  {
    if schedule != [] {
      RunIsValid(schedule[..|schedule| - 1]);
      hide Step, Valid;
      StepKeepsValid(Run(schedule[..|schedule| - 1]), schedule[|schedule| - 1]);
    }
  }

  // ---------------------------------------------------------------- what is remembered

  /** The messages that a step remembers. */
  function Records(s: State, a: Action): set<MessageKey>
  {
    match a
    case Push(scope, id, suppress) =>
      if Ready(s) && suppress && !Seen(s, MessageKey(s.account.value, id)) && !ReadAlready(s, ScopeKey(s.account.value, scope), id)
      then {MessageKey(s.account.value, id)} else {}
    case Remember => if s.worker.Busy? then {s.worker.key} else {}
    case CloseUpTo(scope, through, ids, all) =>
      if Ready(s) then Own(s.account.value, ids + IdsOf(ToClose(s, scope, through, ids, all))) else {}
    case CloseInterrupted(scope, through, ids, all, done, closed, _) =>
      if Ready(s) then
        var covered := ToClose(s, scope, through, ids, all);
        Own(s.account.value, done * (ids + IdsOf(covered)) + IdsOf(closed * covered))
      else {}
    case SwitchSession(Some(uid)) => if s.worker.Idle? && s.account == Some(uid) then Own(uid, IdsOf(s.open)) else {}
    case Restart => if s.worker.Down? && s.account.Some? then Own(s.account.value, IdsOf(OwnNotes(s, s.account.value))) else {}
    case _ => {}
  }

  lemma NothingOwned(uid: nat)
    ensures Own(uid, IdsOf({})) == {}
  {
  }

  /** A step remembers for thirty days, and forgets only what has expired. */
  lemma SeenStep(s: State, a: Action, k: MessageKey)
    ensures var t := Step(s, a);
            && s.now <= t.now
            && (k in Records(s, a) ==> t.now == s.now && k in t.seen && t.seen[k] == s.now + RETENTION)
            && (k !in Records(s, a) ==>
                  && (k in t.seen ==> k in s.seen && t.seen[k] == s.seen[k])
                  && (k in s.seen && Unexpired(s.seen[k], t.now) ==> k in t.seen))
  {
    hide Own, IdsOf, ToClose, OwnNotes, ReadAlready;
    match a
    case Push(_, _, _) =>
    case CloseUpTo(_, _, _, _) => hide Pushing, Restarting, Switching;
    case CloseInterrupted(_, _, _, _, _, _, _) => hide Pushing, Restarting, Switching;
    case SwitchSession(uid) => hide Pushing, Closing, Restarting; NothingOwned(if uid.Some? then uid.value else 0);
    case Restart => hide Pushing, Closing, Switching;
    case _ =>
  }

  /** A step shows message `k`. */
  predicate Shows(s: State, a: Action, k: MessageKey)
  {
    |Step(s, a).shown| > |s.shown| && Step(s, a).shown[|s.shown|].key == k
  }

  lemma ShowStep(s: State, a: Action)
    ensures var t := Step(s, a);
            && (t.shown == s.shown || (|t.shown| == |s.shown| + 1 && t.shown[..|s.shown|] == s.shown))
            && (t.shown != s.shown ==>
                  var last := t.shown[|s.shown|];
                  && a.Push? && !a.suppress && Ready(s) && last == Showing(MessageKey(s.account.value, a.id), a.scope, s.now)
                  && !Seen(s, last.key) && !ReadAlready(s, ScopeKey(last.key.uid, last.scope), last.key.id)
                  && t.worker == Busy(last.key) && t.seen == s.seen && t.now == s.now && Records(s, a) == {})
  {
  }

  // ---------------------------------------------------------------- what every run shows

  /** Message `k` is shown at step `p`. */
  ghost predicate ShownAt(schedule: seq<Action>, p: nat, k: MessageKey)
  {
    p < |schedule| && Shows(Run(schedule[..p]), schedule[p], k)
  }

  function Time(schedule: seq<Action>, p: nat): nat
    requires p <= |schedule|
  {
    Run(schedule[..p]).now
  }

  ghost predicate RecordedAt(schedule: seq<Action>, q: nat, k: MessageKey)
  {
    q < |schedule| && k in Records(Run(schedule[..q]), schedule[q])
  }

  /** Some step after `p` remembers `k`. */
  ghost predicate RecordedSince(schedule: seq<Action>, p: nat, k: MessageKey)
  {
    exists q: nat :: p < q && RecordedAt(schedule, q, k)
  }

  lemma RecordedLater(before: seq<Action>, a: Action, p: nat, k: MessageKey)
    requires p < |before|
    ensures RecordedSince(before + [a], p, k) <==> RecordedSince(before, p, k) || k in Records(Run(before), a)
  {
    hide Run, Records;
    var schedule := before + [a];
    assert forall q: nat :: q <= |before| ==> schedule[..q] == before[..q];
    assert before[..|before|] == before;
    if k in Records(Run(before), a) { assert RecordedAt(schedule, |before|, k); }
    if q: nat :| p < q && RecordedAt(before, q, k) { assert RecordedAt(schedule, q, k); }
    if q: nat :| p < q && RecordedAt(schedule, q, k) {
      if q < |before| { assert RecordedAt(before, q, k); }
    }
  }

  /** For thirty days after a message was shown, it counts as seen exactly if it has been remembered since. */
  lemma {:induction false} SeenMeansRecorded(schedule: seq<Action>, p: nat, k: MessageKey)
    requires ShownAt(schedule, p, k) && Run(schedule).now < Time(schedule, p) + RETENTION
    ensures Seen(Run(schedule), k) <==> RecordedSince(schedule, p, k)
    ensures RecordedSince(schedule, p, k) ==> k in Run(schedule).seen && Run(schedule).seen[k] >= Time(schedule, p) + RETENTION
    ensures Time(schedule, p) <= Run(schedule).now
    decreases |schedule|
  {
    var last := |schedule| - 1;
    var before, a := schedule[..last], schedule[last];
    assert before + [a] == schedule;
    SeenStep(Run(before), a, k);
    if p < last {
      assert before[..p] == schedule[..p] && before[p] == schedule[p];
      SeenMeansRecorded(before, p, k);
      RecordedLater(before, a, p, k);
    } else {
      ShowStep(Run(before), a);
    }
    hide Step, Records, Shows;
  }

  /** In every run, a push of a message that was shown less than thirty days before shows it again if and
      only if it is neither suppressed nor covered by the read mark of its scope, and no step has
      remembered the message since it was shown. */
  lemma ShownAgainExactly(schedule: seq<Action>, p: nat, scope: string, id: nat, suppress: bool)
    requires Ready(Run(schedule))
    requires ShownAt(schedule, p, MessageKey(Run(schedule).account.value, id))
    requires Run(schedule).now < Time(schedule, p) + RETENTION
    ensures var s := Run(schedule); var k := MessageKey(s.account.value, id);
            Shows(s, Push(scope, id, suppress), k) <==>
            !suppress && !ReadAlready(s, ScopeKey(k.uid, scope), id) && !RecordedSince(schedule, p, k)
  {
    SeenMeansRecorded(schedule, p, MessageKey(Run(schedule).account.value, id));
    hide Run;
  }

  /** No message is shown twice within thirty days. */
  ghost predicate ShownOnce(s: State)
  {
    forall i, j :: 0 <= i < j < |s.shown| && s.shown[i].key == s.shown[j].key ==> s.shown[j].at >= s.shown[i].at + RETENTION
  }

  /** Step `q` pushes, to a worker that is ready, a message that is not covered by a read mark and was
      shown less than thirty days before at a step since which nothing has remembered it. */
  ghost predicate Repeats(schedule: seq<Action>, q: nat)
  {
    && q < |schedule| && schedule[q].Push? && !schedule[q].suppress
    && Ready(Run(schedule[..q]))
    && var s := Run(schedule[..q]); var k := MessageKey(s.account.value, schedule[q].id);
    && !ReadAlready(s, ScopeKey(k.uid, schedule[q].scope), k.id)
    && exists p: nat :: ForgottenSince(schedule[..q], p, k)
  }

  ghost predicate ForgottenSince(schedule: seq<Action>, p: nat, k: MessageKey)
  {
    ShownAt(schedule, p, k) && Run(schedule).now < Time(schedule, p) + RETENTION && !RecordedSince(schedule, p, k)
  }

  /** Every showing in the history was made by some step, and the other way round. */
  lemma {:induction false} ShowingOf(schedule: seq<Action>, i: nat) returns (p: nat)
    requires i < |Run(schedule).shown|
    ensures ShownAt(schedule, p, Run(schedule).shown[i].key) && Time(schedule, p) == Run(schedule).shown[i].at
  {
    var last := |schedule| - 1;
    var before := schedule[..last];
    ShowStep(Run(before), schedule[last]);
    if i < |Run(before).shown| {
      p := ShowingOf(before, i);
      assert before[..p] == schedule[..p] && before[p] == schedule[p];
    } else {
      p := last;
    }
  }

  lemma {:induction false} ShownIsKept(schedule: seq<Action>, p: nat, k: MessageKey) returns (i: nat)
    requires ShownAt(schedule, p, k)
    ensures i < |Run(schedule).shown| && Run(schedule).shown[i].key == k && Run(schedule).shown[i].at == Time(schedule, p)
    decreases |schedule|
  {
    hide Step;
    var last := |schedule| - 1;
    var before := schedule[..last];
    ShowStep(Run(before), schedule[last]);
    if p < last {
      assert before[..p] == schedule[..p] && before[p] == schedule[p];
      i := ShownIsKept(before, p, k);
      assert Run(schedule).shown[i] == Run(before).shown[i];
    } else {
      i := |Run(before).shown|;
    }
  }

  lemma RepeatsLater(before: seq<Action>, a: Action, q: nat)
    requires q < |before|
    ensures Repeats(before + [a], q) <==> Repeats(before, q)
  {
    assert (before + [a])[..q] == before[..q];
  }

  /** The last step repeats a message exactly if it shows one that was shown within thirty days. */
  lemma LastRepeats(before: seq<Action>, a: Action)
    ensures Repeats(before + [a], |before|) <==>
            exists i, k :: 0 <= i < |Run(before).shown| && Shows(Run(before), a, k) && Run(before).shown[i].key == k &&
                           Run(before).now < Run(before).shown[i].at + RETENTION
  {
    var s := Run(before);
    assert (before + [a])[..|before|] == before;
    ShowStep(s, a);
    if Repeats(before + [a], |before|) {
      var k := MessageKey(s.account.value, a.id);
      var p: nat :| ForgottenSince(before, p, k);
      ShownAgainExactly(before, p, a.scope, a.id, a.suppress);
      var i := ShownIsKept(before, p, k);
      assert Shows(s, a, k) && s.shown[i].key == k;
    }
    if i, k :| 0 <= i < |s.shown| && Shows(s, a, k) && s.shown[i].key == k && s.now < s.shown[i].at + RETENTION {
      var p := ShowingOf(before, i);
      ShownAgainExactly(before, p, a.scope, a.id, a.suppress);
      assert ForgottenSince(before, p, k);
    }
  }

  /** In every run, no message is shown twice within thirty days if and only if no step is such a push. */
  lemma {:induction false} ShownOnceExactly(schedule: seq<Action>)
    ensures ShownOnce(Run(schedule)) <==> forall q: nat :: !Repeats(schedule, q)
  {
    if schedule != [] {
      var last := |schedule| - 1;
      var before, a := schedule[..last], schedule[last];
      var s, t := Run(before), Run(schedule);
      assert before + [a] == schedule;
      ShownOnceExactly(before);
      ShowStep(s, a);
      LastRepeats(before, a);
      forall q: nat | q < last ensures Repeats(schedule, q) <==> Repeats(before, q) { RepeatsLater(before, a, q); }
      assert forall q: nat :: Repeats(schedule, q) ==> q < |schedule|;
      assert forall q: nat :: Repeats(before, q) ==> q < last;
      hide Step, Repeats;
      OneMoreShown(s, t, a);
      assert (forall q: nat :: !Repeats(schedule, q)) <==> (forall q: nat :: !Repeats(before, q)) && !Repeats(schedule, last);
    }
  }

  /** One more showing keeps every message shown once exactly if it is no recent one. */
  lemma OneMoreShown(s: State, t: State, a: Action)
    requires t == Step(s, a)
    ensures ShownOnce(t) <==>
            ShownOnce(s) && !exists i, k :: 0 <= i < |s.shown| && Shows(s, a, k) && s.shown[i].key == k && s.now < s.shown[i].at + RETENTION
  {
    ShowStep(s, a);
    hide Step;
    if |t.shown| > |s.shown| {
      var last := |s.shown|;
      assert Shows(s, a, t.shown[last].key);
      assert forall i :: 0 <= i < last ==> t.shown[i] == s.shown[i];
    }
  }

  // ---------------------------------------------------------------- kills without dismissals

  predicate OnScreen(s: State, k: MessageKey) { exists n :: n in s.open && n.uid == k.uid && n.id == k.id }

  /** The write that should remember what was shown does not fail, and no notification is dismissed
      between its showing and the point where that is remembered. The worker may be killed at any time. */
  ghost predicate Careful(schedule: seq<Action>, q: nat)
    requires q < |schedule|
  {
    && !(Run(schedule[..q]).worker.Busy? && schedule[q].RememberFails?)
    && (schedule[q].Dismiss? ==>
          forall p: nat :: ShownAt(schedule[..q], p, MessageKey(schedule[q].note.uid, schedule[q].note.id)) ==>
            RecordedSince(schedule[..q], p, MessageKey(schedule[q].note.uid, schedule[q].note.id)))
  }

  ghost predicate CarefulRun(schedule: seq<Action>) { forall q: nat :: q < |schedule| ==> Careful(schedule, q) }

  /** The message is about to be remembered, by the worker that has shown it or by the next one. */
  predicate WillBeRemembered(s: State, k: MessageKey)
  {
    (s.worker == Busy(k) || s.worker.Down?) && OnScreen(s, k) && s.account == Some(k.uid)
  }

  lemma WaitsToBeRemembered(s: State, a: Action, k: MessageKey)
    requires WillBeRemembered(s, k) && !(s.worker.Busy? && a.RememberFails?)
    requires a.Dismiss? ==> MessageKey(a.note.uid, a.note.id) != k
    ensures WillBeRemembered(Step(s, a), k) || k in Records(s, a)
  {
    var n :| n in s.open && n.uid == k.uid && n.id == k.id;
    if a.Dismiss? { assert n in Step(s, a).open; }
    if a.Restart? && s.worker.Down? {
      assert n in OwnNotes(s, k.uid);
      assert k.id in IdsOf(OwnNotes(s, k.uid));
    }
  }

  lemma ShownIsOnScreen(s: State, a: Action, k: MessageKey)
    requires Shows(s, a, k)
    ensures WillBeRemembered(Step(s, a), k)
  {
    ShowStep(s, a);
    assert Note(k.uid, a.scope, k.id) in Step(s, a).open;
  }

  lemma {:induction false} RememberedInTheEnd(schedule: seq<Action>, p: nat, k: MessageKey)
    requires ShownAt(schedule, p, k) && CarefulRun(schedule)
    ensures WillBeRemembered(Run(schedule), k) || RecordedSince(schedule, p, k)
    decreases |schedule|
  {
    hide Step, Records, WillBeRemembered, Shows;
    var last := |schedule| - 1;
    var before, a := schedule[..last], schedule[last];
    assert before + [a] == schedule;
    if p < last {
      assert before[..p] == schedule[..p] && before[p] == schedule[p];
      CarefulBefore(schedule);
      RememberedInTheEnd(before, p, k);
      RecordedLater(before, a, p, k);
      assert Careful(schedule, last);
      if WillBeRemembered(Run(before), k) && !RecordedSince(before, p, k) { WaitsToBeRemembered(Run(before), a, k); }
    } else {
      ShownIsOnScreen(Run(before), a, k);
    }
  }

  lemma CarefulBefore(schedule: seq<Action>)
    requires CarefulRun(schedule) && schedule != []
    ensures CarefulRun(schedule[..|schedule| - 1])
  {
    var before := schedule[..|schedule| - 1];
    forall q: nat | q < |before| ensures Careful(before, q) {
      assert before[..q] == schedule[..q] && before[q] == schedule[q] && Careful(schedule, q);
    }
  }

  lemma CarefulPrefix(schedule: seq<Action>, q: nat)
    requires CarefulRun(schedule) && q <= |schedule|
    ensures CarefulRun(schedule[..q])
  {
    forall r: nat | r < q ensures Careful(schedule[..q], r) {
      assert schedule[..q][..r] == schedule[..r] && Careful(schedule, r);
    }
  }

  /** Across every run of pushes, closes, session changes, kills and restarts, no message is shown twice
      within thirty days, if no write fails and no notification is dismissed between its showing and the
      point where that is remembered. */
  lemma ShownAtMostOnce(schedule: seq<Action>)
    requires CarefulRun(schedule)
    ensures ShownOnce(Run(schedule))
  {
    ShownOnceExactly(schedule);
    forall q: nat ensures !Repeats(schedule, q) {
      if Repeats(schedule, q) {
        var before := schedule[..q];
        var k := MessageKey(Run(before).account.value, schedule[q].id);
        var p: nat :| ForgottenSince(before, p, k);
        CarefulPrefix(schedule, q);
        RememberedInTheEnd(before, p, k);
      }
    }
  }

  /** A message is shown twice: the worker is killed after showing it, the user dismisses it, and the
      worker starts again. */
  lemma ShownTwice(uid: nat, scope: string, id: nat)
    ensures !ShownOnce(SecondPush(uid, scope, id))
  {
    var first := AfterKill(uid, scope, id);
    assert first.open == {Note(uid, scope, id)} && first.seen == map[] && |first.shown| == 1;
    var second := Step(Step(first, Dismiss(Note(uid, scope, id))), Restart);
    assert second.seen == map[];
    var s := SecondPush(uid, scope, id);
    assert |s.shown| == 2 && s.shown[0].key == s.shown[1].key && s.shown[0].at == s.shown[1].at;
  }

  function FirstPush(uid: nat, scope: string, id: nat): State
  {
    Step(Step(INITIAL, SwitchSession(Some(uid))), Push(scope, id, false))
  }

  function AfterKill(uid: nat, scope: string, id: nat): State { Step(FirstPush(uid, scope, id), Kill) }

  function SecondPush(uid: nat, scope: string, id: nat): State
  {
    Step(Step(Step(AfterKill(uid, scope, id), Dismiss(Note(uid, scope, id))), Restart), Push(scope, id, false))
  }

  /** And again: the write that should remember it fails. */
  lemma ShownTwiceAfterFailedWrite(uid: nat, scope: string, id: nat)
    ensures !ShownOnce(Step(Step(FirstPush(uid, scope, id), RememberFails), Push(scope, id, false)))
  {
    var first := FirstPush(uid, scope, id);
    assert first.seen == map[] && |first.shown| == 1;
    var s := Step(Step(first, RememberFails), Push(scope, id, false));
    assert |s.shown| == 2 && s.shown[0].key == s.shown[1].key && s.shown[0].at == s.shown[1].at;
  }

  // ---------------------------------------------------------------- read marks

  /** No step lowers a read mark that has not expired. */
  lemma MarksNeverDecrease(s: State, a: Action, k: ScopeKey)
    requires k in s.marks && Unexpired(s.marks[k].expiresAt, Step(s, a).now)
    ensures k in Step(s, a).marks
    ensures Step(s, a).marks[k].through >= s.marks[k].through
  {
  }

  /** A close, completed or interrupted after it stored the mark. */
  predicate Acknowledges(s: State, a: Action, k: ScopeKey, through: nat)
  {
    && Ready(s) && s.account == Some(k.uid)
    && (a.CloseUpTo? || a.CloseInterrupted?) && a.target == k.scope && a.through == Some(through)
  }

  ghost predicate AcknowledgedAt(schedule: seq<Action>, p: nat, k: ScopeKey, through: nat)
  {
    p < |schedule| && Acknowledges(Run(schedule[..p]), schedule[p], k, through)
  }

  predicate MarkHolds(s: State, k: ScopeKey, through: nat, until: nat)
  {
    k in s.marks && s.marks[k].through >= through && s.marks[k].expiresAt >= until
  }

  lemma MarkHoldsLonger(s: State, a: Action, k: ScopeKey, through: nat, until: nat)
    requires Step(s, a).now < until <= s.now + RETENTION
    requires MarkHolds(s, k, through, until) || (Acknowledges(s, a, k, through) && until == s.now + RETENTION)
    ensures MarkHolds(Step(s, a), k, through, until)
  {
  }

  lemma TimeAdvances(s: State, a: Action)
    ensures s.now <= Step(s, a).now
  {
  }

  lemma {:induction false} MarkStays(schedule: seq<Action>, p: nat, k: ScopeKey, through: nat)
    requires AcknowledgedAt(schedule, p, k, through) && Run(schedule).now < Time(schedule, p) + RETENTION
    ensures MarkHolds(Run(schedule), k, through, Time(schedule, p) + RETENTION)
    ensures Time(schedule, p) <= Run(schedule).now
    decreases |schedule|
  {
    var last := |schedule| - 1;
    var before, a := schedule[..last], schedule[last];
    TimeAdvances(Run(before), a);
    if p < last {
      assert before[..p] == schedule[..p] && before[p] == schedule[p];
      MarkStays(before, p, k, through);
    }
    hide Step;
    MarkHoldsLonger(Run(before), a, k, through, Time(schedule, p) + RETENTION);
  }

  /** In every run, for thirty days after a scope was acknowledged as read up to a message, no message of
      that scope up to it is shown, even if the close was cut short. */
  lemma NothingReadIsShown(schedule: seq<Action>, p: nat, k: ScopeKey, through: nat, a: Action)
    requires AcknowledgedAt(schedule, p, k, through)
    requires Step(Run(schedule), a).shown != Run(schedule).shown && Run(schedule).now < Time(schedule, p) + RETENTION
    ensures var t := Step(Run(schedule), a); var last := t.shown[|t.shown| - 1];
            ScopeKey(last.key.uid, last.scope) == k ==> last.key.id > through
  {
    MarkStays(schedule, p, k, through);
    ShowStep(Run(schedule), a);
    hide Run, Step;
  }

  // ---------------------------------------------------------------- what stays on the screen

  /** The notification lies at or below the unexpired mark of its scope. */
  predicate Covered(s: State, n: Note) { ReadAlready(s, ScopeKey(n.uid, n.scope), n.id) }

  predicate OpenThoughRead(s: State, n: Note) { n in s.open && Covered(s, n) }

  /** The highest message that the scope of the notification was ever known to be read through. */
  predicate Below(s: State, n: Note, through: nat)
  {
    var k := ScopeKey(n.uid, n.scope);
    n.id <= through || (k in s.marks && n.id <= s.marks[k].through)
  }

  /** A close stores a mark over the notification and leaves it open: it was interrupted before it came
      to that notification, or it went less far than the mark, expired or not, that it stores again. */
  predicate Leaves(s: State, a: Action, n: Note)
  {
    && n in s.open && Acknowledges(s, a, ScopeKey(n.uid, n.scope), if (a.CloseUpTo? || a.CloseInterrupted?) && a.through.Some? then a.through.value else 0)
    && Below(s, n, a.through.value)
    && (!Closes(n, a.target, a.through, a.ids, a.all) || (a.CloseInterrupted? && n !in a.closed))
  }

  /** One step leaves a notification open at or below its mark exactly in these cases. */
  lemma LeavesExactly(s: State, a: Action, n: Note)
    requires Valid(s) && !OpenThoughRead(s, n)
    ensures OpenThoughRead(Step(s, a), n) <==> Leaves(s, a, n)
  {
  }

  lemma LeavesCovered(s: State, a: Action, n: Note)
    requires Leaves(s, a, n)
    ensures OpenThoughRead(Step(s, a), n)
  {
  }

  predicate MarkLives(s: State, n: Note)
  {
    var k := ScopeKey(n.uid, n.scope);
    k in s.marks && Unexpired(s.marks[k].expiresAt, s.now)
  }

  lemma StillCovered(s: State, a: Action, n: Note)
    requires OpenThoughRead(s, n) && n in Step(s, a).open && MarkLives(Step(s, a), n)
    ensures OpenThoughRead(Step(s, a), n)
  {
  }

  /** Step `p` left it open, and since then it has stayed open and its mark has not expired. */
  ghost predicate LeftAt(schedule: seq<Action>, p: nat, n: Note)
  {
    && p < |schedule| && Leaves(Run(schedule[..p]), schedule[p], n)
    && forall q :: p < q <= |schedule| ==> n in Run(schedule[..q]).open && MarkLives(Run(schedule[..q]), n)
  }

  /** In every run, a notification is open although it is read if and only if some close left it open in
      this way, by being interrupted or by reviving an expired mark, and nothing has closed it since. */
  lemma {:induction false} StaysOpenExactly(schedule: seq<Action>, n: Note)
    ensures OpenThoughRead(Run(schedule), n) <==> exists p: nat :: LeftAt(schedule, p, n)
  {
    hide Step, Leaves, MarkLives, Valid;
    if schedule != [] {
      var last := |schedule| - 1;
      var before, a := schedule[..last], schedule[last];
      var s := Run(before);
      StaysOpenExactly(before, n);
      RunIsValid(before);
      assert schedule[..|schedule|] == schedule;
      if OpenThoughRead(Run(schedule), n) {
        if OpenThoughRead(s, n) {
          var p: nat :| LeftAt(before, p, n);
          assert before + [a] == schedule;
          StaysLeft(before, a, p, n);
        } else {
          LeavesExactly(s, a, n);
          ReadMarkLives(Run(schedule), n);
          assert LeftAt(schedule, last, n);
        }
      }
      if p: nat :| LeftAt(schedule, p, n) {
        assert n in Run(schedule[..|schedule|]).open && MarkLives(Run(schedule[..|schedule|]), n);
        if p < last {
          assert before + [a] == schedule;
          WasLeft(before, a, p, n);
          StillCovered(s, a, n);
        } else {
          LeavesCovered(s, a, n);
        }
        assert OpenThoughRead(Run(schedule), n);
      }
    }
  }

  lemma ReadMarkLives(s: State, n: Note)
    requires OpenThoughRead(s, n)
    ensures MarkLives(s, n)
  {
  }

  lemma StaysLeft(before: seq<Action>, a: Action, p: nat, n: Note)
    requires LeftAt(before, p, n) && OpenThoughRead(Run(before + [a]), n)
    ensures LeftAt(before + [a], p, n)
  {
    var schedule := before + [a];
    hide Run, Leaves;
    assert schedule[..p] == before[..p] && schedule[..|schedule|] == schedule;
    forall q | p < q <= |schedule| ensures n in Run(schedule[..q]).open && MarkLives(Run(schedule[..q]), n) {
      if q <= |before| { assert schedule[..q] == before[..q]; }
    }
  }

  lemma WasLeft(before: seq<Action>, a: Action, p: nat, n: Note)
    requires LeftAt(before + [a], p, n) && p < |before|
    ensures LeftAt(before, p, n)
  {
    var schedule := before + [a];
    hide Run, Leaves;
    assert schedule[..p] == before[..p];
    forall q | p < q <= |before| ensures n in Run(before[..q]).open && MarkLives(Run(before[..q]), n) {
      assert schedule[..q] == before[..q];
      assert n in Run(schedule[..q]).open && MarkLives(Run(schedule[..q]), n);
    }
  }

  /** An expired mark can come back to life: a later close below it stores it again, and what was shown
      under it in the meantime stays open. */
  lemma ExpiredMarkRevives(uid: nat, scope: string)
    ensures var s := RevivedMark(uid, scope); s.worker.Idle? && OpenThoughRead(s, Note(uid, scope, 5))
  {
    var k := ScopeKey(uid, scope);
    var marked := Step(Step(INITIAL, SwitchSession(Some(uid))), CloseUpTo(scope, Some(9), {}, false));
    assert marked.marks == map[k := Mark(9, RETENTION)] && marked.open == {};
    assert marked.seen == map[];
    var expired := Step(marked, Wait(RETENTION));
    assert !Seen(expired, MessageKey(uid, 5)) && !ReadAlready(expired, k, 5);
    var shown := Step(Step(expired, Push(scope, 5, false)), Remember);
    assert shown.open == {Note(uid, scope, 5)} && shown.marks == marked.marks;
    assert !Closes(Note(uid, scope, 5), scope, Some(3), {}, false);
  }

  function RevivedMark(uid: nat, scope: string): State
  {
    var marked := Step(Step(INITIAL, SwitchSession(Some(uid))), CloseUpTo(scope, Some(9), {}, false));
    var shown := Step(Step(Step(marked, Wait(RETENTION)), Push(scope, 5, false)), Remember);
    Step(shown, CloseUpTo(scope, Some(3), {}, false))
  }

  // ---------------------------------------------------------------- the worker's handlers

  lemma RememberedTogether(s: State, a: set<MessageKey>, b: set<MessageKey>)
    ensures Remembered(Remembered(s, a), b) == Remembered(s, a + b)
  {
  }

  class NotificationWorker {
    var state: State

    constructor ()
      ensures state == INITIAL
    {
      state := INITIAL;
    }

    method RememberMessage(uid: nat, id: nat)
      modifies this
      ensures state == Remembered(old(state), {MessageKey(uid, id)})
    {
      state := state.(seen := state.seen[MessageKey(uid, id) := state.now + RETENTION]);
      assert state.seen == Remembered(old(state), {MessageKey(uid, id)}).seen;
    }

    method RememberAll(uid: nat, ids: set<nat>)
      modifies this
      ensures state == Remembered(old(state), Own(uid, ids))
    {
      hide Remembered, Own;
      var left := ids;
      NothingDone(state, uid, ids);
      while left != {}
        invariant left <= ids
        invariant state == Remembered(old(state), Own(uid, ids - left))
        decreases |left|
      {
        var id :| id in left;
        OneMore(old(state), uid, ids, left, id);
        RememberMessage(uid, id);
        left := left - {id};
      }
      assert ids - left == ids;
    }

    /** A push that is not interrupted: shown unless seen or read already, and then remembered. */
    method Receive(scope: string, id: nat, suppress: bool)
      requires state.worker.Idle?
      modifies this
      ensures state == Step(Step(old(state), Push(scope, id, suppress)), Remember)
    {
      if state.account.None? { return; }
      var uid := state.account.value;
      if Seen(state, MessageKey(uid, id)) || ReadAlready(state, ScopeKey(uid, scope), id) { return; }
      if !suppress {
        state := Show(state, Note(uid, scope, id));
      }
      RememberMessage(uid, id);
      state := state.(worker := Idle);
    }

    /** The mark is raised, the listed messages are remembered, and every notification that is covered
        is remembered and closed. */
    method Close(scope: string, through: Option<nat>, ids: set<nat>, all: bool)
      requires Ready(state)
      modifies this
      ensures state == Step(old(state), CloseUpTo(scope, through, ids, all))
    {
      var uid := state.account.value;
      state := Raised(state, ScopeKey(uid, scope), through);
      ghost var marked := state;
      hide Remembered, Own, Raised;
      RememberAll(uid, ids);
      SameScreen(marked, Own(uid, ids));
      var covered := ToClose(state, scope, through, ids, all);
      RememberAll(uid, IdsOf(covered));
      RememberedTogether(marked, Own(uid, ids), Own(uid, IdsOf(covered)));
      OwnTogether(uid, ids, IdsOf(covered));
      SameScreen(marked, Own(uid, ids + IdsOf(covered)));
      RaisedScreen(old(state), ScopeKey(uid, scope), through);
      state := state.(open := state.open - covered);
    }

    /** The worker starts again: expired records are dropped, and what is on the screen is remembered. */
    method Start()
      requires state.worker.Down?
      modifies this
      ensures state == Step(old(state), Restart)
    {
      state := state.(worker := Idle,
                      seen := map k | k in state.seen && Unexpired(state.seen[k], state.now) :: state.seen[k],
                      marks := map k | k in state.marks && Unexpired(state.marks[k].expiresAt, state.now) :: state.marks[k]);
      if state.account.Some? {
        RememberAll(state.account.value, IdsOf(OwnNotes(state, state.account.value)));
      }
    }
  }

  lemma OwnTogether(uid: nat, a: set<nat>, b: set<nat>)
    ensures Own(uid, a) + Own(uid, b) == Own(uid, a + b)
  {
  }

  lemma RaisedScreen(s: State, k: ScopeKey, through: Option<nat>)
    ensures Raised(s, k, through).open == s.open
  {
  }

  lemma SameScreen(s: State, keys: set<MessageKey>)
    ensures Remembered(s, keys).open == s.open
  {
  }

  lemma NothingDone(s: State, uid: nat, ids: set<nat>)
    ensures Remembered(s, Own(uid, ids - ids)) == s
  {
  }

  lemma OneMore(s: State, uid: nat, ids: set<nat>, left: set<nat>, id: nat)
    requires id in left && left <= ids
    ensures Remembered(s, Own(uid, ids - (left - {id}))) == Remembered(Remembered(s, Own(uid, ids - left)), {MessageKey(uid, id)})
  {
    RememberedTogether(s, Own(uid, ids - left), {MessageKey(uid, id)});
    assert Own(uid, ids - (left - {id})) == Own(uid, ids - left) + {MessageKey(uid, id)};
  }
}

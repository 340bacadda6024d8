/** The event gate of a session (backend/src/rpc/session.rs): publishers of events race with control
    commands that replace watches, with suspension and with the final notice. Every task takes the
    gate and the state lock one at a time and may be cancelled wherever it waits; a schedule is any
    sequence of such actions by any number of tasks. */
module EventGate {
  import opened Json

  const MAX_GENERATION: nat := 0xFFFF_FFFF_FFFF_FFFF

  datatype Kind = Presence | Unread | States
  datatype RequestId = NoRequestId | RequestId(number: nat)
  datatype Watch = Watch(generation: nat, requestId: RequestId)

  datatype Job =
    | PublishWatch(kind: Kind, watch: Watch)
    | PublishEvent
    | Replace(target: Kind, requestId: Option<RequestId>)
    | Suspend
    | Notify
    | Activate
    | Bind

  /** Where a task stands. A task that is `Cleared` has passed its check and is about to enqueue. */
  datatype Stage = Waiting | AtGate | Locked | Cleared | Finished
  datatype Task = Task(job: Job, stage: Stage)

  /** What the outside world can see, in order. A successful replacement is listed with the number of
      the generation it drew. */
  datatype Happening =
    | Replaced(kind: Kind, current: Option<Watch>, number: nat)
    | SentWatch(kind: Kind, watch: Watch)
    | SentEvent
    | AdmissionStopped
    | SentNotice

  datatype State = State(
    gate: Option<nat>, lock: Option<nat>,
    accepting: bool, activated: bool, bound: bool, notified: bool, closed: bool,
    counter: nat, issued: nat, watches: map<Kind, Watch>,
    tasks: map<nat, Task>, trace: seq<Happening>)

  const INITIAL := State(None, None, true, false, false, false, false, 0, 0, map[], map[], [])

  datatype Action =
    | Begin(task: nat, job: Job)
    | TakeGate(task: nat)
    | TakeLock(task: nat)
    | Proceed(task: nat)
    | Enqueue(task: nat, sent: bool)
    | Cancel(task: nat)
    | Close

  // ---------------------------------------------------------------- generations

  /** A u64 that wraps and skips zero. */
  function NextGeneration(counter: nat): nat
  {
    var next := (counter + 1) % (MAX_GENERATION + 1);
    if next == 0 then 1 else next
  }

  /** The counter after `n` generations have been issued. */
  function GenerationAfter(n: nat): nat
  {
    if n == 0 then 0 else (n - 1) % MAX_GENERATION + 1
  }

  lemma NextIsAfter(n: nat)
    ensures NextGeneration(GenerationAfter(n)) == GenerationAfter(n + 1)
  {
    if n > 0 {
      var q, r := (n - 1) / MAX_GENERATION, (n - 1) % MAX_GENERATION;
      assert n - 1 == q * MAX_GENERATION + r;
      if r == MAX_GENERATION - 1 {
        assert n == (q + 1) * MAX_GENERATION;
        Residue(n, q + 1, 0);
      } else {
        Residue(n, q, r + 1);
      }
    }
  }

  lemma Residue(n: nat, q: nat, r: nat)
    requires n == q * MAX_GENERATION + r && r < MAX_GENERATION
    ensures n % MAX_GENERATION == r
  {
    var q', r' := n / MAX_GENERATION, n % MAX_GENERATION;
    assert n == q' * MAX_GENERATION + r';
    assert (q - q') * MAX_GENERATION == r' - r;
  }

  /** Two generations issued in one session are equal exactly when a whole number of wraps lies
      between them; zero is never issued. */
  lemma GenerationsRepeatOnlyAtWrap(m: nat, n: nat)
    requires 0 < m <= n
    ensures 0 < GenerationAfter(m) <= MAX_GENERATION
    ensures GenerationAfter(m) == GenerationAfter(n) <==> (n - m) % MAX_GENERATION == 0
  {
  }

  // ---------------------------------------------------------------- steps

  predicate UsesGate(job: Job) { !job.Activate? && !job.Bind? }

  predicate HoldsGate(t: Task) { UsesGate(t.job) && (t.stage.AtGate? || t.stage.Locked? || t.stage.Cleared?) }

  /** The watch publisher keeps the state lock until its event is queued; the others release it. */
  predicate HoldsLock(t: Task) { t.stage.Locked? || (t.stage.Cleared? && t.job.PublishWatch?) }

  function Moved(s: State, i: nat, stage: Stage): State
    requires i in s.tasks
  {
    s.(tasks := s.tasks[i := s.tasks[i].(stage := stage)])
  }

  /** A task that ends frees whatever it holds. */
  function Ended(s: State, i: nat): State
    requires i in s.tasks
  {
    Moved(s, i, Finished).(
      gate := if s.gate == Some(i) then None else s.gate,
      lock := if s.lock == Some(i) then None else s.lock)
  }

  /** A task that passes its check keeps the gate, and only a watch publisher keeps the lock. */
  function Passed(s: State, i: nat): State
    requires i in s.tasks
  {
    Moved(s, i, Cleared).(lock := if s.tasks[i].job.PublishWatch? then s.lock else None)
  }

  predicate Current(watches: map<Kind, Watch>, kind: Kind, watch: Watch) { kind in watches && watches[kind] == watch }

  function Replacing(s: State, kind: Kind, requestId: Option<RequestId>): State
  {
    var generation := NextGeneration(s.counter);
    var bumped := s.(counter := generation, issued := s.issued + 1);
    if !s.bound then bumped
    else if requestId.None? then
      bumped.(watches := s.watches - {kind}, trace := s.trace + [Replaced(kind, None, s.issued + 1)])
    else
      var watch := Watch(generation, requestId.value);
      bumped.(watches := s.watches[kind := watch], trace := s.trace + [Replaced(kind, Some(watch), s.issued + 1)])
  }

  function Stopping(s: State): State
  {
    s.(accepting := false, trace := if s.accepting then s.trace + [AdmissionStopped] else s.trace)
  }

  /** What a task does under the state lock, where it does not wait. */
  function Proceeding(s: State, i: nat): State
    requires i in s.tasks
  {
    match s.tasks[i].job
    case PublishWatch(kind, watch) =>
      if s.closed || !s.accepting || !s.activated || !s.bound || !Current(s.watches, kind, watch) then Ended(s, i)
      else Passed(s, i)
    case PublishEvent => if s.closed || !s.accepting then Ended(s, i) else Passed(s, i)
    case Replace(kind, requestId) => Ended(if s.accepting then Replacing(s, kind, requestId) else s, i)
    case Suspend => Ended(Stopping(s), i)
    case Notify => if s.notified then Ended(s, i) else Passed(Stopping(s).(notified := true), i)
    case Activate => Ended(s.(activated := s.activated || (s.accepting && s.bound)), i)
    case Bind => Ended(s.(bound := s.bound || s.accepting), i)
  }

  function Message(job: Job): seq<Happening>
  {
    match job
    case PublishWatch(kind, watch) => [SentWatch(kind, watch)]
    case PublishEvent => [SentEvent]
    case Notify => [SentNotice]
    case _ => []
  }

  function Step(s: State, a: Action): State
  {
    match a
    case Close => s.(closed := true)
    case Begin(i, job) => if i in s.tasks then s else s.(tasks := s.tasks[i := Task(job, Waiting)])
    case TakeGate(i) =>
      if i in s.tasks && s.tasks[i].stage.Waiting? && UsesGate(s.tasks[i].job) && s.gate.None?
      then Moved(s, i, AtGate).(gate := Some(i)) else s
    case TakeLock(i) =>
      if i in s.tasks && s.lock.None? && s.tasks[i].stage == (if UsesGate(s.tasks[i].job) then AtGate else Waiting)
      then Moved(s, i, Locked).(lock := Some(i)) else s
    case Proceed(i) => if i in s.tasks && s.tasks[i].stage.Locked? then Proceeding(s, i) else s
    case Enqueue(i, sent) =>
      if i in s.tasks && s.tasks[i].stage.Cleared? then
        var t := Ended(if sent && !s.closed then s.(trace := s.trace + Message(s.tasks[i].job)) else s, i);
        if s.tasks[i].job.Notify? then t.(closed := true) else t
      else s
    case Cancel(i) => if i in s.tasks && !s.tasks[i].stage.Finished? then Ended(s, i) else s
  }

  function Run(s: State, schedule: seq<Action>): State
  {
    if schedule == [] then s else Step(Run(s, schedule[..|schedule| - 1]), schedule[|schedule| - 1])
  }

  // ---------------------------------------------------------------- what the trace must satisfy

  /** The watch of a kind after the last replacement so far. */
  function Latest(trace: seq<Happening>, kind: Kind): Option<Watch>
  {
    if trace == [] then None
    else
      var last := trace[|trace| - 1];
      if last.Replaced? && last.kind == kind then last.current else Latest(trace[..|trace| - 1], kind)
  }

  predicate Stopped(trace: seq<Happening>) { AdmissionStopped in trace }

  predicate IsEvent(h: Happening) { h.SentWatch? || h.SentEvent? }

  /** What may happen after `past`: a watch event only for the latest watch of its kind, any event
      only before admission stops, the notice only after it and only once. */
  ghost predicate Allowed(past: seq<Happening>, h: Happening)
  {
    && (h.SentWatch? ==> Latest(past, h.kind) == Some(h.watch))
    && (IsEvent(h) ==> !Stopped(past))
    && (h.Replaced? || h.AdmissionStopped? ==> !Stopped(past))
    && (h.SentNotice? ==> Stopped(past) && SentNotice !in past)
  }

  ghost predicate Orderly(trace: seq<Happening>)
  {
    forall i :: 0 <= i < |trace| ==> Allowed(trace[..i], trace[i])
  }

  /** Successful replacements draw ever larger numbers, and the number decides the generation. */
  ghost predicate Numbered(trace: seq<Happening>, issued: nat)
  {
    && (forall i :: 0 <= i < |trace| && trace[i].Replaced? ==>
          && 0 < trace[i].number <= issued
          && (trace[i].current.Some? ==> trace[i].current.value.generation == GenerationAfter(trace[i].number)))
    && forall i, j :: 0 <= i < j < |trace| && trace[i].Replaced? && trace[j].Replaced? ==> trace[i].number < trace[j].number
  }

  // ---------------------------------------------------------------- invariant

  /** The gate and the lock are held by the tasks whose stage says so, and by no other. */
  ghost predicate ResourcesValid(tasks: map<nat, Task>, gate: Option<nat>, lock: Option<nat>)
  {
    && (gate.Some? ==> gate.value in tasks)
    && (lock.Some? ==> lock.value in tasks)
    && forall i :: i in tasks ==> (HoldsGate(tasks[i]) <==> gate == Some(i)) && (HoldsLock(tasks[i]) <==> lock == Some(i))
  }

  /** What a task that has passed its check may still rely on. */
  ghost predicate ClearanceValid(t: Task, accepting: bool, activated: bool, notified: bool, watches: map<Kind, Watch>,
                                 trace: seq<Happening>)
  {
    t.stage.Cleared? ==>
      && !t.job.Replace? && !t.job.Suspend? && UsesGate(t.job)
      && (t.job.PublishWatch? ==> accepting && activated && Current(watches, t.job.kind, t.job.watch))
      && (t.job.PublishEvent? ==> accepting)
      && (t.job.Notify? ==> notified && SentNotice !in trace)
  }

  ghost predicate ClearancesValid(s: State)
  {
    forall i :: i in s.tasks ==>
      ClearanceValid(s.tasks[i], s.accepting, s.activated, s.notified, s.watches, s.trace)
  }

  ghost predicate TraceValid(s: State)
  {
    && Orderly(s.trace)
    && (s.accepting <==> !Stopped(s.trace))
    && (SentNotice in s.trace ==> s.notified)
    && (s.notified ==> !s.accepting)
    && forall kind :: Latest(s.trace, kind) == if kind in s.watches then Some(s.watches[kind]) else None
  }

  ghost predicate Valid(s: State)
  {
    && ResourcesValid(s.tasks, s.gate, s.lock)
    && ClearancesValid(s)
    && TraceValid(s)
    && Numbered(s.trace, s.issued)
    && s.counter == GenerationAfter(s.issued)
  }

  lemma OrderlyAppend(trace: seq<Happening>, h: Happening)
    requires Orderly(trace) && Allowed(trace, h)
    ensures Orderly(trace + [h])
  {
    forall i | 0 <= i < |trace| + 1 ensures Allowed((trace + [h])[..i], (trace + [h])[i]) {
      assert (trace + [h])[..i] == trace[..i];
    }
    assert trace[..|trace|] == trace;
  }

  lemma NumberedAppend(trace: seq<Happening>, issued: nat, h: Happening)
    requires Numbered(trace, issued) && !h.Replaced?
    ensures Numbered(trace + [h], issued)
  {
  }

  lemma LatestAppend(trace: seq<Happening>, h: Happening, kind: Kind)
    ensures Latest(trace + [h], kind) == if h.Replaced? && h.kind == kind then h.current else Latest(trace, kind)
  {
  }

  lemma HappeningKeepsTrace(s: State, t: State, h: Happening)
    requires TraceValid(s) && Allowed(s.trace, h) && t.trace == s.trace + [h]
    requires h.AdmissionStopped? || h.Replaced? || t.watches == s.watches
    requires h.Replaced? ==> t.watches == if h.current.Some? then s.watches[h.kind := h.current.value] else s.watches - {h.kind}
    requires h.AdmissionStopped? ==> t.watches == s.watches
    requires t.accepting == (s.accepting && !h.AdmissionStopped?)
    requires t.notified ==> !t.accepting
    requires s.notified ==> t.notified
    requires h.SentNotice? ==> t.notified
    ensures TraceValid(t)
  {
    OrderlyAppend(s.trace, h);
    forall kind ensures Latest(t.trace, kind) == if kind in t.watches then Some(t.watches[kind]) else None {
      LatestAppend(s.trace, h, kind);
    }
  }

  /** A task changes its stage and takes or gives back what the new stage says. */
  lemma MoveKeepsResources(tasks: map<nat, Task>, gate: Option<nat>, lock: Option<nat>, i: nat, t: Task)
    requires ResourcesValid(tasks, gate, lock)
    requires HoldsGate(t) ==> gate.None? || gate == Some(i)
    requires HoldsLock(t) ==> lock.None? || lock == Some(i)
    ensures ResourcesValid(tasks[i := t],
                           if HoldsGate(t) then Some(i) else if gate == Some(i) then None else gate,
                           if HoldsLock(t) then Some(i) else if lock == Some(i) then None else lock)
  {
  }

  /** The holder of the gate is the only task that can be cleared. */
  lemma OnlyHolderIsCleared(s: State, i: nat, j: nat)
    requires Valid(s) && s.gate == Some(i) && j in s.tasks && j != i
    ensures !s.tasks[j].stage.Cleared?
  {
  }

  /** A step that leaves the shared state alone: only task `i` moves, and it is not cleared. */
  lemma MoveKeepsValid(s: State, i: nat, t: Task)
    requires Valid(s) && !t.stage.Cleared?
    requires HoldsGate(t) ==> s.gate.None? || s.gate == Some(i)
    requires HoldsLock(t) ==> s.lock.None? || s.lock == Some(i)
    ensures Valid(s.(tasks := s.tasks[i := t],
                     gate := if HoldsGate(t) then Some(i) else if s.gate == Some(i) then None else s.gate,
                     lock := if HoldsLock(t) then Some(i) else if s.lock == Some(i) then None else s.lock))
  {
    MoveKeepsResources(s.tasks, s.gate, s.lock, i, t);
  }

  lemma EndKeepsValid(s: State, i: nat)
    requires Valid(s) && i in s.tasks
    ensures Valid(Ended(s, i))
  {
  }

  /** A step of the holder of the gate may change the shared state, if the trace stays in order. */
  lemma HolderEnds(s: State, m: State, i: nat)
    requires Valid(s) && i in s.tasks && s.gate == Some(i)
    requires m.tasks == s.tasks && m.gate == s.gate && m.lock == s.lock
    requires TraceValid(m) && Numbered(m.trace, m.issued) && m.counter == GenerationAfter(m.issued)
    ensures Valid(Ended(m, i))
  {
    MoveKeepsResources(s.tasks, s.gate, s.lock, i, s.tasks[i].(stage := Finished));
    forall j | j in s.tasks && j != i ensures !s.tasks[j].stage.Cleared? {
      OnlyHolderIsCleared(s, i, j);
    }
  }

  lemma TakeKeepsValid(s: State, i: nat)
    requires Valid(s)
    ensures Valid(Step(s, TakeGate(i))) && Valid(Step(s, TakeLock(i)))
  {
    if i in s.tasks && s.tasks[i].stage.Waiting? && UsesGate(s.tasks[i].job) && s.gate.None? {
      MoveKeepsValid(s, i, s.tasks[i].(stage := AtGate));
    }
    if i in s.tasks && s.lock.None? && s.tasks[i].stage == (if UsesGate(s.tasks[i].job) then AtGate else Waiting) {
      MoveKeepsValid(s, i, s.tasks[i].(stage := Locked));
    }
  }

  lemma BeginKeepsValid(s: State, i: nat, job: Job)
    requires Valid(s)
    ensures Valid(Step(s, Begin(i, job)))
  {
    if i !in s.tasks { MoveKeepsValid(s, i, Task(job, Waiting)); }
  }

  lemma EnqueueKeepsValid(s: State, i: nat, sent: bool)
    requires Valid(s)
    ensures Valid(Step(s, Enqueue(i, sent)))
  {
    if i in s.tasks && s.tasks[i].stage.Cleared? {
      var job := s.tasks[i].job;
      assert ClearanceValid(s.tasks[i], s.accepting, s.activated, s.notified, s.watches, s.trace);
      if sent && !s.closed {
        var t := s.(trace := s.trace + Message(job));
        HappeningKeepsTrace(s, t, Message(job)[0]);
        NumberedAppend(s.trace, s.issued, Message(job)[0]);
        HolderEnds(s, t, i);
      } else {
        EndKeepsValid(s, i);
      }
    }
  }

  lemma NextNumber(trace: seq<Happening>, issued: nat, kind: Kind, current: Option<Watch>)
    requires Numbered(trace, issued)
    requires current.Some? ==> current.value.generation == GenerationAfter(issued + 1)
    ensures Numbered(trace, issued + 1) && Numbered(trace + [Replaced(kind, current, issued + 1)], issued + 1)
  {
  }

  lemma ReplacingKeepsTrace(s: State, kind: Kind, requestId: Option<RequestId>)
    requires TraceValid(s) && Numbered(s.trace, s.issued) && s.counter == GenerationAfter(s.issued) && s.accepting
    ensures var t := Replacing(s, kind, requestId);
            TraceValid(t) && Numbered(t.trace, t.issued) && t.counter == GenerationAfter(t.issued)
  {
    NextIsAfter(s.issued);
    var current := if requestId.Some? then Some(Watch(GenerationAfter(s.issued + 1), requestId.value)) else None;
    NextNumber(s.trace, s.issued, kind, current);
    hide Numbered, Latest, GenerationAfter, NextGeneration;
    if s.bound {
      HappeningKeepsTrace(s, Replacing(s, kind, requestId), Replaced(kind, current, s.issued + 1));
    }
  }

  lemma ReplaceKeepsValid(s: State, i: nat)
    requires Valid(s) && i in s.tasks && s.tasks[i].stage.Locked? && s.tasks[i].job.Replace?
    ensures Valid(Proceeding(s, i))
  {
    hide Ended, TraceValid, Numbered;
    if s.accepting {
      ReplacingKeepsTrace(s, s.tasks[i].job.target, s.tasks[i].job.requestId);
      HolderEnds(s, Replacing(s, s.tasks[i].job.target, s.tasks[i].job.requestId), i);
    } else {
      EndKeepsValid(s, i);
    }
  }

  lemma StopKeepsTrace(s: State)
    requires TraceValid(s)
    ensures TraceValid(Stopping(s)) && TraceValid(Stopping(s).(notified := true))
  {
    if s.accepting {
      HappeningKeepsTrace(s, Stopping(s), AdmissionStopped);
    }
  }

  lemma SuspendKeepsValid(s: State, i: nat)
    requires Valid(s) && i in s.tasks && s.tasks[i].stage.Locked? && s.tasks[i].job.Suspend?
    ensures Valid(Proceeding(s, i))
  {
    StopKeepsTrace(s);
    NumberedAppend(s.trace, s.issued, AdmissionStopped);
    hide Numbered, TraceValid;
    HolderEnds(s, Stopping(s), i);
  }

  /** Task `i` passes its check: what it was checked against holds until it lets go of the gate. */
  lemma PassKeepsValid(s: State, m: State, i: nat)
    requires Valid(s) && i in s.tasks && s.tasks[i].stage.Locked? && UsesGate(s.tasks[i].job)
    requires m.tasks == s.tasks && m.gate == s.gate && m.lock == s.lock
    requires TraceValid(m) && Numbered(m.trace, m.issued) && m.counter == GenerationAfter(m.issued)
    requires ClearanceValid(s.tasks[i].(stage := Cleared), m.accepting, m.activated, m.notified, m.watches, m.trace)
    ensures Valid(Passed(m, i))
  {
  }

  lemma NotifyKeepsValid(s: State, i: nat)
    requires Valid(s) && i in s.tasks && s.tasks[i].stage.Locked? && s.tasks[i].job.Notify?
    ensures Valid(Proceeding(s, i))
  {
    if s.notified {
      EndKeepsValid(s, i);
    } else {
      StopKeepsTrace(s);
      NumberedAppend(s.trace, s.issued, AdmissionStopped);
      assert SentNotice !in s.trace;
      PassKeepsValid(s, Stopping(s).(notified := true), i);
    }
  }

  lemma PublishKeepsValid(s: State, i: nat)
    requires Valid(s) && i in s.tasks && s.tasks[i].stage.Locked?
    requires s.tasks[i].job.PublishWatch? || s.tasks[i].job.PublishEvent?
    ensures Valid(Proceeding(s, i))
  {
    EndKeepsValid(s, i);
    if Proceeding(s, i) != Ended(s, i) {
      PassKeepsValid(s, s, i);
    }
  }

  /** Binding and activating take no gate, but they only ever enable. */
  lemma IdentityKeepsValid(s: State, i: nat)
    requires Valid(s) && i in s.tasks && s.tasks[i].stage.Locked? && !UsesGate(s.tasks[i].job)
    ensures Valid(Proceeding(s, i))
  {
    var t := if s.tasks[i].job.Activate? then s.(activated := s.activated || (s.accepting && s.bound))
             else s.(bound := s.bound || s.accepting);
    assert Valid(t);
    EndKeepsValid(t, i);
  }

  lemma ProceedKeepsValid(s: State, i: nat)
    requires Valid(s) && i in s.tasks && s.tasks[i].stage.Locked?
    ensures Valid(Proceeding(s, i))
  {
    match s.tasks[i].job
    case Replace(_, _) => ReplaceKeepsValid(s, i);
    case Suspend => SuspendKeepsValid(s, i);
    case Notify => NotifyKeepsValid(s, i);
    case Activate => IdentityKeepsValid(s, i);
    case Bind => IdentityKeepsValid(s, i);
    case PublishWatch(_, _) => PublishKeepsValid(s, i);
    case PublishEvent => PublishKeepsValid(s, i);
  }

  lemma StepKeepsValid(s: State, a: Action)
    requires Valid(s)
    ensures Valid(Step(s, a))
  {
    match a
    case Close =>
    case Begin(i, job) => BeginKeepsValid(s, i, job);
    case TakeGate(i) => TakeKeepsValid(s, i);
    case TakeLock(i) => TakeKeepsValid(s, i);
    case Enqueue(i, sent) => EnqueueKeepsValid(s, i, sent);
    case Cancel(i) => if i in s.tasks { EndKeepsValid(s, i); }
    case Proceed(i) => if i in s.tasks && s.tasks[i].stage.Locked? { ProceedKeepsValid(s, i); }
  }

  lemma {:induction false} RunIsValid(schedule: seq<Action>)
    ensures Valid(Run(INITIAL, schedule))
  {
    if schedule != [] {
      RunIsValid(schedule[..|schedule| - 1]);
      StepKeepsValid(Run(INITIAL, schedule[..|schedule| - 1]), schedule[|schedule| - 1]);
    }
  }

  // ---------------------------------------------------------------- what every run guarantees

  /** The latest watch of a kind is the one of the last replacement of that kind. */
  lemma {:induction false} LatestIsLastReplacement(trace: seq<Happening>, kind: Kind, i: nat)
    requires i < |trace| && trace[i].Replaced? && trace[i].kind == kind
    requires forall j :: i < j < |trace| ==> !(trace[j].Replaced? && trace[j].kind == kind)
    ensures Latest(trace, kind) == trace[i].current
    decreases |trace|
  {
    if i < |trace| - 1 {
      LatestIsLastReplacement(trace[..|trace| - 1], kind, i);
    }
  }

  /** In every schedule, an event of a watch that is queued after a replacement of its kind, with no
      other replacement of that kind between them, is an event of the replacing watch. */
  lemma NothingStaleFollowsAReplacement(schedule: seq<Action>, i: nat, j: nat)
    requires var trace := Run(INITIAL, schedule).trace;
             && i < j < |trace| && trace[i].Replaced? && trace[j].SentWatch? && trace[i].kind == trace[j].kind
             && forall k :: i < k < j ==> !(trace[k].Replaced? && trace[k].kind == trace[j].kind)
    ensures var trace := Run(INITIAL, schedule).trace; trace[i].current == Some(trace[j].watch)
  {
    RunIsValid(schedule);
    var trace := Run(INITIAL, schedule).trace;
    assert Allowed(trace[..j], trace[j]);
    LatestIsLastReplacement(trace[..j], trace[j].kind, i);
  }

  /** Two watches installed in one run have the same generation only if a whole number of wraps of
      the counter lies between them, whatever their kinds; no generation is zero. */
  lemma GenerationsAreDistinct(schedule: seq<Action>, i: nat, j: nat)
    requires var trace := Run(INITIAL, schedule).trace;
             i < j < |trace| && trace[i].Replaced? && trace[j].Replaced? && trace[i].current.Some? && trace[j].current.Some?
    ensures var trace := Run(INITIAL, schedule).trace;
            && 0 < trace[i].number < trace[j].number && trace[i].current.value.generation > 0
            && (trace[i].current.value.generation == trace[j].current.value.generation <==>
                  (trace[j].number - trace[i].number) % MAX_GENERATION == 0)
  {
    RunIsValid(schedule);
    hide Run, ResourcesValid, ClearancesValid, TraceValid, GenerationAfter;
    var s := Run(INITIAL, schedule);
    assert Numbered(s.trace, s.issued);
    GenerationsRepeatOnlyAtWrap(s.trace[i].number, s.trace[j].number);
  }

  /** Once admission has stopped, no event is queued and no watch replaced, and nothing at all
      follows the notice. */
  lemma NothingFollowsSuspension(schedule: seq<Action>, i: nat, j: nat)
    requires var trace := Run(INITIAL, schedule).trace;
             i < j < |trace| && (trace[i].AdmissionStopped? || trace[i].SentNotice?)
    ensures Run(INITIAL, schedule).trace[i].AdmissionStopped? && Run(INITIAL, schedule).trace[j].SentNotice?
  {
    RunIsValid(schedule);
    var trace := Run(INITIAL, schedule).trace;
    assert Allowed(trace[..i], trace[i]) && Allowed(trace[..j], trace[j]);
    assert trace[i] == trace[..j][i];
    if trace[i].SentNotice? {
      StoppedLater(trace, i, j);
    }
  }

  lemma StoppedLater(trace: seq<Happening>, i: nat, j: nat)
    requires i <= j <= |trace| && Stopped(trace[..i])
    ensures Stopped(trace[..j])
  {
  }

  /** The trace only grows and admission never resumes. */
  predicate Adds(s: State, t: State)
  {
    s.trace <= t.trace && (!s.accepting ==> !t.accepting)
  }

  lemma EndAdds(s: State, t: State, i: nat)
    requires Adds(s, t) && i in t.tasks
    ensures Adds(s, Ended(t, i)) && Adds(s, Passed(t, i))
  {
  }

  lemma ProceedAdds(s: State, i: nat)
    requires i in s.tasks
    ensures Adds(s, Proceeding(s, i))
  {
    hide Ended, Passed, Adds;
    var job := s.tasks[i].job;
    EndAdds(s, s, i);
    match job
    case Replace(kind, requestId) => EndAdds(s, Replacing(s, kind, requestId), i);
    case Suspend => EndAdds(s, Stopping(s), i);
    case Notify => EndAdds(s, Stopping(s).(notified := true), i);
    case Activate => EndAdds(s, s.(activated := s.activated || (s.accepting && s.bound)), i);
    case Bind => EndAdds(s, s.(bound := s.bound || s.accepting), i);
    case PublishWatch(_, _) =>
    case PublishEvent =>
  }

  lemma StepAdds(s: State, a: Action)
    ensures Adds(s, Step(s, a))
  {
    hide Ended, Proceeding, Message;
    match a
    case Proceed(i) => if i in s.tasks { ProceedAdds(s, i); }
    case Enqueue(i, sent) =>
      if i in s.tasks { EndAdds(s, if sent && !s.closed then s.(trace := s.trace + Message(s.tasks[i].job)) else s, i); }
    case Cancel(i) => if i in s.tasks { EndAdds(s, s, i); }
    case _ =>
  }

  /** A suspension that has been carried out leaves admission stopped in every continuation. */
  lemma {:induction false} SuspensionIsFinal(before: seq<Action>, after: seq<Action>)
    ensures Adds(Run(INITIAL, before), Run(INITIAL, before + after))
  {
    hide Step;
    if after == [] {
      assert before + after == before;
    } else {
      var rest := after[..|after| - 1];
      SuspensionIsFinal(before, rest);
      assert (before + after)[..|before + after| - 1] == before + rest;
      StepAdds(Run(INITIAL, before + rest), after[|after| - 1]);
    }
  }
}

/** Admission of calls (backend/src/rpc/session.rs): ordinary work takes a permit of its connection
    and then one of the process, control work takes a permit of its connection only. The two
    acquisitions are separate, so other sessions may act in between, and admitted work keeps its
    permits even when its session has ended. */
module Admission {
  const MAX_IN_FLIGHT: nat := 16
  const MAX_GLOBAL_IN_FLIGHT: nat := 128
  const CONTROL_PERMITS: nat := 9

  /** A task holds a connection permit from the moment it exists; `Running` ordinary work holds a
      global permit as well. */
  datatype Stage = Asking | Running
  datatype Task = Task(session: nat, ordinary: bool, stage: Stage)

  datatype Session = Session(ordinary: nat, controls: nat, ended: bool)

  datatype State = State(global: nat, sessions: map<nat, Session>, tasks: map<nat, Task>)

  const INITIAL := State(MAX_GLOBAL_IN_FLIGHT, map[], map[])
  const FRESH := Session(MAX_IN_FLIGHT, CONTROL_PERMITS, false)

  datatype Action =
    | Open(session: nat)
    | Ask(task: nat, session: nat)
    | AskGlobal(task: nat)
    | AdmitControl(task: nat, session: nat)
    | Finish(task: nat)
    | End(session: nat)

  /** Work that ends, or is not admitted after all, gives back what it holds. */
  function Dropped(s: State, i: nat): State
    requires i in s.tasks
  {
    var k := s.tasks[i];
    var t := s.(tasks := s.tasks - {i}, global := s.global + if k.ordinary && k.stage.Running? then 1 else 0);
    if k.session !in s.sessions then t
    else if k.ordinary then
      t.(sessions := s.sessions[k.session := s.sessions[k.session].(ordinary := s.sessions[k.session].ordinary + 1)])
    else
      t.(sessions := s.sessions[k.session := s.sessions[k.session].(controls := s.sessions[k.session].controls + 1)])
  }

  predicate Live(s: State, session: nat) { session in s.sessions && !s.sessions[session].ended }

  function Step(s: State, a: Action): State
  {
    match a
    case Open(x) => if x in s.sessions then s else s.(sessions := s.sessions[x := FRESH])
    case End(x) => if x in s.sessions then s.(sessions := s.sessions[x := s.sessions[x].(ended := true)]) else s
    case Ask(i, x) =>
      if i !in s.tasks && Live(s, x) && s.sessions[x].ordinary > 0 then
        s.(tasks := s.tasks[i := Task(x, true, Asking)],
           sessions := s.sessions[x := s.sessions[x].(ordinary := s.sessions[x].ordinary - 1)])
      else s
    case AskGlobal(i) =>
      if i !in s.tasks || !s.tasks[i].ordinary || s.tasks[i].stage.Running? then s
      else if s.global > 0 then s.(global := s.global - 1, tasks := s.tasks[i := s.tasks[i].(stage := Running)])
      else Dropped(s, i)
    case AdmitControl(i, x) =>
      if i !in s.tasks && Live(s, x) && s.sessions[x].controls > 0 then
        s.(tasks := s.tasks[i := Task(x, false, Running)],
           sessions := s.sessions[x := s.sessions[x].(controls := s.sessions[x].controls - 1)])
      else s
    case Finish(i) => if i in s.tasks && s.tasks[i].stage.Running? then Dropped(s, i) else s
  }

  function Run(s: State, schedule: seq<Action>): State
  {
    if schedule == [] then s else Step(Run(s, schedule[..|schedule| - 1]), schedule[|schedule| - 1])
  }

  // ---------------------------------------------------------------- conservation

  function Of(tasks: map<nat, Task>, session: nat, ordinary: bool): set<nat>
  {
    set i | i in tasks && tasks[i].session == session && tasks[i].ordinary == ordinary
  }

  function Globally(tasks: map<nat, Task>): set<nat>
  {
    set i | i in tasks && tasks[i].ordinary && tasks[i].stage.Running?
  }

  /** Free and held permits make up each of the three limits. */
  ghost predicate Conserved(s: State)
  {
    && s.global + |Globally(s.tasks)| == MAX_GLOBAL_IN_FLIGHT
    && (forall i :: i in s.tasks ==> s.tasks[i].session in s.sessions)
    && forall x :: x in s.sessions ==>
         && s.sessions[x].ordinary + |Of(s.tasks, x, true)| == MAX_IN_FLIGHT
         && s.sessions[x].controls + |Of(s.tasks, x, false)| == CONTROL_PERMITS
  }

  lemma CountsOfPut(tasks: map<nat, Task>, i: nat, k: Task, x: nat, ordinary: bool)
    requires i !in tasks
    ensures |Of(tasks[i := k], x, ordinary)| ==
              |Of(tasks, x, ordinary)| + if k.session == x && k.ordinary == ordinary then 1 else 0
    ensures |Globally(tasks[i := k])| == |Globally(tasks)| + if k.ordinary && k.stage.Running? then 1 else 0
  {
    if k.session == x && k.ordinary == ordinary {
      assert Of(tasks[i := k], x, ordinary) == Of(tasks, x, ordinary) + {i};
    } else {
      assert Of(tasks[i := k], x, ordinary) == Of(tasks, x, ordinary);
    }
    if k.ordinary && k.stage.Running? {
      assert Globally(tasks[i := k]) == Globally(tasks) + {i};
    } else {
      assert Globally(tasks[i := k]) == Globally(tasks);
    }
  }

  lemma CountsOfRemoval(tasks: map<nat, Task>, i: nat, x: nat, ordinary: bool)
    requires i in tasks
    ensures |Of(tasks, x, ordinary)| ==
              |Of(tasks - {i}, x, ordinary)| + if tasks[i].session == x && tasks[i].ordinary == ordinary then 1 else 0
    ensures |Globally(tasks)| == |Globally(tasks - {i})| + if tasks[i].ordinary && tasks[i].stage.Running? then 1 else 0
  {
    CountsOfPut(tasks - {i}, i, tasks[i], x, ordinary);
    assert (tasks - {i})[i := tasks[i]] == tasks;
  }

  lemma DropConserves(s: State, i: nat)
    requires Conserved(s) && i in s.tasks
    ensures Conserved(Dropped(s, i))
  {
    CountsOfRemoval(s.tasks, i, 0, true);
    forall x | x in s.sessions
      ensures Dropped(s, i).sessions[x].ordinary + |Of(s.tasks - {i}, x, true)| == MAX_IN_FLIGHT
      ensures Dropped(s, i).sessions[x].controls + |Of(s.tasks - {i}, x, false)| == CONTROL_PERMITS
    {
      CountsOfRemoval(s.tasks, i, x, true);
      CountsOfRemoval(s.tasks, i, x, false);
    }
  }

  lemma CountsOfAdmission(tasks: map<nat, Task>, i: nat, k: Task)
    requires i !in tasks
    ensures forall y: nat, ordinary: bool ::
              |Of(tasks[i := k], y, ordinary)| == |Of(tasks, y, ordinary)| + if k.session == y && k.ordinary == ordinary then 1 else 0
  {
    forall y: nat, ordinary: bool
      ensures |Of(tasks[i := k], y, ordinary)| == |Of(tasks, y, ordinary)| + if k.session == y && k.ordinary == ordinary then 1 else 0
    {
      CountsOfPut(tasks, i, k, y, ordinary);
    }
  }

  lemma AskConserves(s: State, i: nat, x: nat)
    requires Conserved(s) && i !in s.tasks && Live(s, x) && s.sessions[x].ordinary > 0
    ensures Conserved(Step(s, Ask(i, x)))
  {
    hide Of, Globally;
    CountsOfAdmission(s.tasks, i, Task(x, true, Asking));
    CountsOfPut(s.tasks, i, Task(x, true, Asking), x, true);
  }

  lemma AdmitControlConserves(s: State, i: nat, x: nat)
    requires Conserved(s) && i !in s.tasks && Live(s, x) && s.sessions[x].controls > 0
    ensures Conserved(Step(s, AdmitControl(i, x)))
  {
    hide Of, Globally;
    CountsOfAdmission(s.tasks, i, Task(x, false, Running));
    CountsOfPut(s.tasks, i, Task(x, false, Running), x, false);
  }

  lemma PromoteConserves(s: State, i: nat)
    requires Conserved(s) && i in s.tasks && s.tasks[i].ordinary && s.tasks[i].stage.Asking? && s.global > 0
    ensures Conserved(Step(s, AskGlobal(i)))
  {
    var after := s.tasks[i := s.tasks[i].(stage := Running)];
    assert Globally(after) == Globally(s.tasks) + {i};
    forall x | x in s.sessions ensures Of(after, x, true) == Of(s.tasks, x, true) && Of(after, x, false) == Of(s.tasks, x, false) {
    }
  }

  lemma OpenConserves(s: State, x: nat)
    requires Conserved(s)
    ensures Conserved(Step(s, Open(x)))
  {
  }

  lemma StepConserves(s: State, a: Action)
    requires Conserved(s)
    ensures Conserved(Step(s, a))
  {
    match a
    case Open(x) => OpenConserves(s, x);
    case End(x) =>
    case Ask(i, x) => if i !in s.tasks && Live(s, x) && s.sessions[x].ordinary > 0 { AskConserves(s, i, x); }
    case AdmitControl(i, x) => if i !in s.tasks && Live(s, x) && s.sessions[x].controls > 0 { AdmitControlConserves(s, i, x); }
    case AskGlobal(i) =>
      if i in s.tasks && s.tasks[i].ordinary && s.tasks[i].stage.Asking? {
        if s.global > 0 { PromoteConserves(s, i); } else { DropConserves(s, i); }
      }
    case Finish(i) => if i in s.tasks { DropConserves(s, i); }
  }

  lemma {:induction false} RunConserves(schedule: seq<Action>)
    ensures Conserved(Run(INITIAL, schedule))
  {
    if schedule == [] {
      assert Globally(map[]) == {};
    } else {
      RunConserves(schedule[..|schedule| - 1]);
      StepConserves(Run(INITIAL, schedule[..|schedule| - 1]), schedule[|schedule| - 1]);
    }
  }

  /** Over any number of sessions: at most 128 ordinary calls run in the process, at most 16 on one
      connection and at most 9 control calls on one, live or ended. */
  lemma LimitsHold(schedule: seq<Action>, x: nat)
    ensures var s := Run(INITIAL, schedule);
            && |Globally(s.tasks)| <= MAX_GLOBAL_IN_FLIGHT
            && |Of(s.tasks, x, true)| <= MAX_IN_FLIGHT
            && |Of(s.tasks, x, false)| <= CONTROL_PERMITS
  {
    RunConserves(schedule);
    var s := Run(INITIAL, schedule);
    if x !in s.sessions {
      assert Of(s.tasks, x, true) == {} && Of(s.tasks, x, false) == {};
    }
  }

  /** When no admitted work remains, every permit is free again, whatever failed on the way. */
  lemma PermitsComeBack(schedule: seq<Action>)
    requires Run(INITIAL, schedule).tasks == map[]
    ensures var s := Run(INITIAL, schedule);
            && s.global == MAX_GLOBAL_IN_FLIGHT
            && forall x :: x in s.sessions ==>
                 s.sessions[x].ordinary == MAX_IN_FLIGHT && s.sessions[x].controls == CONTROL_PERMITS
  {
    RunConserves(schedule);
    var s := Run(INITIAL, schedule);
    assert Globally(s.tasks) == {};
    forall x | x in s.sessions ensures Of(s.tasks, x, true) == {} && Of(s.tasks, x, false) == {} {
    }
  }
}

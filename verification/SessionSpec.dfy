/** What each step of the session's select loop may change: predicates that relate the state before
    a step to the state after it, and lemmas showing that the steps of module SessionLoop meet
    them. */
module SessionSpec {
  import opened Json
  import opened Protocol
  import opened SessionState
  import opened SessionSteps
  import opened SessionBatches

  const MAX_FRAME_BYTES: nat := 50 * 1024 * 1024

  datatype Scheduled = Pending | Immediate(reply: Option<Reply>) | Duplicate(reply: Option<Reply>)

  datatype Completion = Done(lifecycle: Option<LifecycleFailure>) | Failed

  datatype Incoming = Oversized(id: Option<RpcId>) | Text(parsed: Parsed)

  /** A call as the loop schedules it. */
  datatype Call = NewCall(id: Option<RpcId>, target: Method)

  function MethodOf(registry: map<string, ExecutionClass>, name: string): Method
  {
    if name == "session.open" then SessionOpen
    else if name == "auth.createDevSession" then CreateDevSession
    else Other(if name in registry then Some(registry[name]) else None)
  }

  /** The only well-formed first message: a single `session.open` with a non-null id. */
  predicate ValidOpen(m: RpcMessage)
  {
    m.Single? && m.item.Call? && m.item.call.name == "session.open" &&
    m.item.call.id.Some? && !m.item.call.id.value.NullId?
  }

  /** The ids of the calls of a batch that must be answered, in order. */
  function CallIds(items: seq<RpcItem>): seq<RpcId>
  {
    if items == [] then []
    else
      var last := items[|items| - 1];
      CallIds(items[..|items| - 1]) +
      if last.Call? && last.call.id.Some? then [last.call.id.value] else []
  }

  ghost predicate OnlyEvents(before: seq<Frame>, after: seq<Frame>)
  {
    && |before| <= |after|
    && after[..|before|] == before
    && forall k :: |before| <= k < |after| ==> after[k] == EventFrame
  }

  lemma {:induction false} EventsAreNoReplies(before: seq<Frame>, after: seq<Frame>)
    requires OnlyEvents(before, after)
    ensures Replies(after) == Replies(before)
    ensures Quiet(after) <==> Quiet(before)
    decreases |after|
  {
    if |after| == |before| {
      assert after == before;
    } else {
      var rest := after[..|after| - 1];
      assert rest[..|before|] == before;
      EventsAreNoReplies(before, rest);
      assert after == rest + [EventFrame];
    }
  }

  /** Every reply queued so far is still queued, in its place. */
  ghost predicate Appended(before: seq<Frame>, after: seq<Frame>) { Replies(before) <= Replies(after) }

  lemma PlanAppends(before: seq<Frame>, after: seq<Frame>, plan: seq<Frame>, ended: bool)
    requires Follows(before, after, plan, ended)
    ensures Appended(before, after)
  {
  }

  lemma AppendedTwice(before: seq<Frame>, middle: seq<Frame>, after: seq<Frame>)
    requires Appended(before, middle) && Appended(middle, after)
    ensures Appended(before, after)
  {
  }

  lemma NothingAppends(output: seq<Frame>)
    ensures Appended(output, output)
  {
  }

  lemma InterferenceAppends(s: State, t: State)
    requires Interfered(s, t)
    ensures Appended(s.output, t.output)
  {
    InterferenceKeepsReplies(s, t);
  }

  lemma RepliesOfAppend(output: seq<Frame>, f: Frame)
    requires !f.EventFrame?
    ensures Replies(output + [f]) == Replies(output) + [f]
  {
  }

  /** How other tasks may change the state while the loop awaits. */
  ghost predicate Interfered(s: State, t: State)
  {
    && t == s.(closed := t.closed, bound := t.bound, output := t.output)
    && (s.closed ==> t.closed)
    && OnlyEvents(s.output, t.output)
    && (!(s.accepting && s.activated) ==> t.output == s.output)
  }

  lemma InterferenceKeepsReplies(s: State, t: State)
    requires Interfered(s, t)
    ensures Replies(t.output) == Replies(s.output)
    ensures Quiet(t.output) <==> Quiet(s.output)
    ensures !s.accepting ==> t.output == s.output
    ensures t == s.(closed := t.closed, bound := t.bound, output := t.output)
    ensures s.closed ==> t.closed
  {
    EventsAreNoReplies(s.output, t.output);
  }

  /** Admission has stopped; nothing else changed but what other tasks did meanwhile. */
  ghost predicate SuspendedFrom(s: State, t: State)
  {
    && t == Suspended(s).(closed := t.closed, bound := t.bound, output := t.output)
    && (s.closed ==> t.closed)
    && Replies(t.output) == Replies(s.output) && (Quiet(t.output) <==> Quiet(s.output))
  }

  lemma SuspendAfterWait(s: State, m: State)
    requires Interfered(s, m)
    ensures SuspendedFrom(s, Suspended(m))
  {
    hide Quiet, Replies, Interfered;
    InterferenceKeepsReplies(s, m);
  }

  /** The session has been told of the failure (unless the transport failed first) and is closed. */
  ghost predicate NotifiedFrom(s: State, t: State, failure: LifecycleFailure)
  {
    && t == Notifying(s).(closed := true, bound := t.bound, output := t.output)
    && Follows(s.output, t.output, [NoticeFrame(failure)], true)
  }

  lemma NoticeAfterWait(s: State, m: State, failure: LifecycleFailure)
    requires Interfered(s, m)
    requires Quiet(s.output) || (!s.accepting && Noticeable(s.output, failure))
    ensures Noticeable(m.output, failure)
    ensures Notifying(m).notified && !Notifying(m).accepting && Notifying(m).output == m.output
  {
    assert Noticeable(m.output, failure) by {
      hide Quiet, Replies, Interfered, Suspended;
      InterferenceKeepsReplies(s, m);
    }
  }

  lemma NoticeFollows(before: seq<Frame>, met: seq<Frame>, after: seq<Frame>, failure: LifecycleFailure)
    requires Replies(met) == Replies(before)
    requires after == met + [NoticeFrame(failure)] || after == met
    ensures Follows(before, after, [NoticeFrame(failure)], true)
  {
    if after == met {
      PlanStops(before, after, [NoticeFrame(failure)]);
    } else {
      RepliesOfAppend(met, NoticeFrame(failure));
      PlanOfOneIsDone(before, after, NoticeFrame(failure), true);
    }
  }

  /** The notice is queued, or the transport has failed; nothing else changes. */
  ghost predicate NoticeTried(s: State, t: State, failure: LifecycleFailure)
  {
    && t == s.(closed := t.closed, bound := t.bound, output := t.output)
    && (t.output == s.output + [NoticeFrame(failure)] || (t.closed && t.output == s.output))
  }

  lemma NoticeIsTried(s: State, m: State, failure: LifecycleFailure)
    requires Interfered(s, m) && !s.accepting
    ensures m.output == s.output && m.notified == s.notified
    ensures NoticeTried(s, Noticed(m, failure), failure)
    ensures NoticeTried(s, m.(closed := true), failure)
  {
  }

  lemma NoticeSent(s: State, m: State, t: State, failure: LifecycleFailure)
    requires Interfered(s, m) && NoticeTried(Notifying(m), t, failure)
    ensures NotifiedFrom(s, t.(closed := true), failure)
  {
    hide Quiet, Replies, Follows;
    InterferenceKeepsReplies(s, m);
    NoticeFollows(s.output, m.output, t.output, failure);
  }

  lemma NothingInterferes(s: State)
    ensures Interfered(s, s)
  {
  }

  lemma CloseInterferes(s: State, t: State, bound: bool)
    requires Interfered(s, t)
    ensures Interfered(s, t.(closed := true))
    ensures Interfered(s, t.(bound := bound))
  {
  }

  lemma PublishInterferes(s: State, t: State)
    requires Interfered(s, t) && t.accepting && t.activated
    ensures Interfered(s, Published(t))
  {
  }

  // ---------------------------------------------------------------- scheduling one call

  /** The call is registered with the loop: its id becomes outstanding, its batch waits for it. */
  function Arrived(s: State, call: Call, destination: Destination): State
    requires destination.ToBatch? ==> destination.batch in s.batches
  {
    if destination.ToSingle? then
      if call.id.Some? then AnnouncedSingle(s, call.id.value) else s
    else if call.id.Some? then AnnouncedMember(s, destination.batch, call.id.value)
    else if call.target.Activates() then AnnouncedNotification(s, destination.batch)
    else s
  }

  function WorkOf(call: Call, origin: Option<nat>, destination: Destination, closeAfterError: bool): Work
  {
    Work(call.id, origin, destination, call.target, closeAfterError, call.target.Activates(),
         call.id.Some? || call.target.Activates())
  }

  /** The loop is free to schedule a call for `destination`. */
  ghost predicate Free(s: State, destination: Destination)
  {
    && s.hand.None? && !s.scheduling && !s.slack && !s.first
    && (destination.ToSingle? ==> s.building.None?)
    && (destination.ToBatch? ==>
          && s.building == Some(destination.batch) && destination.batch in s.batches && s.openedAt.Some?
          && s.batches[destination.batch].base + |s.batches[destination.batch].requestIds| == |s.requests|)
  }

  /** Before the opening reply, only the opening call itself may be scheduled. */
  ghost predicate MayOpen(s: State, call: Call, destination: Destination, closeAfterError: bool)
  {
    s.openedAt.None? ==>
      s.requests == [] && destination.ToSingle? && closeAfterError &&
      call.target.SessionOpen? && call.id.Some? && !call.id.value.NullId?
  }

  /** Scheduling changes nothing but the fate of the arrived call, and lets other tasks run. */
  ghost predicate Framed(a: State, t: State)
  {
    && t.running == a.running && t.first == a.first && t.handshake == a.handshake
    && t.accepting == a.accepting && t.cutoff == a.cutoff && t.notified == a.notified
    && t.activated == a.activated && t.openedAt == a.openedAt
    && t.batchesRead == a.batchesRead && t.batches == a.batches && t.building == a.building
    && (a.closed ==> t.closed)
    && Replies(t.output) == Replies(a.output) && (Quiet(t.output) <==> Quiet(a.output))
    && |t.requests| == |a.requests|
    && forall o :: 0 <= o < |a.requests| ==>
         t.requests[o].id == a.requests[o].id && t.requests[o].home == a.requests[o].home &&
         (Some(o) == a.hand || t.requests[o] == a.requests[o])
  }

  /** Calls of these classes are run or end the session; they are never turned away. */
  predicate Supervised(target: Method) { target.Class() == Some(Handshake) || target.Class() == Some(Control) }

  /** What `schedule_call` may do with a call, and what it may not: a duplicate id is never
      dispatched, a call with an id is dropped unanswered only by a closed or suspended session,
      and a call of an unregistered name is never spawned. */
  ghost predicate Decided(s: State, t: State, call: Call, destination: Destination, closeAfterError: bool,
                          r: Scheduled)
    requires destination.ToBatch? ==> destination.batch in s.batches
  {
    var a := Arrived(s, call, destination);
    && (r.Duplicate? <==> call.id.Some? && call.id.value in s.outstanding)
    && (r.Duplicate? ==> t == s && (r.reply.Some? ==> Unaddressed(r.reply.value)))
    && (!r.Duplicate? ==> Framed(a, t) && !t.scheduling)
    && (r.Pending? ==>
          && call.target.Class().Some?
          && t.works == s.works[s.spawned := WorkOf(call, a.hand, destination, closeAfterError)]
          && t.spawned == s.spawned + 1 && t.outstanding == a.outstanding
          && t.hand.None? && !t.slack)
    && (r.Immediate? ==>
          && t.works == s.works && t.spawned == s.spawned && t.slack == a.slack
          && (r.reply.None? ==> t.hand.None? && (call.id.Some? ==> t.closed || !t.accepting))
          && (Supervised(call.target) ==> r.reply.None? && (t.closed || !t.accepting))
          && (r.reply.Some? ==>
                && call.id.Some? && t.hand == a.hand && Rejection(r.reply.value, call.id.value, a.hand)
                && (destination.ToSingle? ==> t.outstanding == s.outstanding)))
  }

  /** An error reply to a request, without consequences for the session. */
  predicate Rejection(r: Reply, id: RpcId, origin: Option<nat>)
  {
    r.id == id && r.origin == origin && !r.success && r.lifecycle.None?
  }

  /** An error reply to something that is not a request. */
  predicate Unaddressed(r: Reply) { Rejection(r, NullId, None) }

  lemma ArriveKeepsValid(s: State, call: Call, destination: Destination, closeAfterError: bool)
    requires Valid(s) && Free(s, destination) && MayOpen(s, call, destination, closeAfterError)
    requires call.id.Some? ==> call.id.value !in s.outstanding
    ensures Valid(Arrived(s, call, destination))
  {
    hide Valid;
    match destination {
      case ToSingle => if call.id.Some? { AnnounceSingleKeepsValid(s, call.id.value); }
      case ToBatch(b) =>
        if call.id.Some? { AnnounceMemberKeepsValid(s, b, call.id.value); }
        else if call.target.Activates() { AnnounceNotificationKeepsValid(s, b); }
    }
  }

  lemma InterferenceIsFramed(s: State, t: State)
    requires Interfered(s, t)
    ensures Framed(s, t)
    ensures t.works == s.works && t.spawned == s.spawned && t.requests == s.requests
    ensures t.hand == s.hand && t.scheduling == s.scheduling && t.slack == s.slack && t.outstanding == s.outstanding
  {
    InterferenceKeepsReplies(s, t);
  }

  /** The loop has decided on an error reply to the call in hand. */
  ghost predicate Answered(s: State, t: State, id: Option<RpcId>, destination: Destination, reply: Option<Reply>)
  {
    && (id.None? ==> reply.None? && t == s)
    && (id.Some? && reply.Some? ==>
          t == Freed(s, destination) && Rejection(reply.value, id.value, s.hand))
    && (id.Some? && reply.None? ==> t == LostHand(Freed(s, destination).(closed := true)))
  }

  /** A single call's id is free before its immediate reply; a batch member's is not. */
  function Freed(s: State, destination: Destination): State
  {
    if destination.ToSingle? then Released(s) else s
  }

  lemma FreedFields(s: State, destination: Destination)
    ensures Framed(s, Freed(s, destination))
    ensures var t := Freed(s, destination);
            && t.works == s.works && t.spawned == s.spawned && t.slack == s.slack && t.hand == s.hand
            && t.closed == s.closed && t.requests == s.requests
            && t.scheduling == (destination.ToBatch? && s.scheduling)
            && t.outstanding == (if destination.ToSingle? then s.outstanding - IdInHand(s) else s.outstanding)
  {
  }

  lemma LostFields(s: State, m: State)
    requires Framed(s, m)
    ensures var t := LostHand(m.(closed := true));
            && (s.hand == m.hand ==> Framed(s, t)) && t.closed
            && t.works == m.works && t.spawned == m.spawned && t.slack == m.slack && t.hand.None? && !t.scheduling
  {
  }

  lemma FramedTransitive(s: State, m: State, t: State)
    requires Framed(s, m) && Framed(m, t) && s.hand == m.hand
    ensures Framed(s, t)
  {
  }

  lemma FreeHand(s: State, destination: Destination)
    requires Free(s, destination)
    ensures s.hand.None? && !s.scheduling && !s.slack
    ensures destination.ToBatch? ==> destination.batch in s.batches
  {
  }

  lemma KnownCutoff(s: State)
    requires Valid(s)
    ensures !s.accepting ==> s.cutoff.Some? && s.cutoff.value <= |s.requests|
    ensures s.openedAt.None? ==> s.spawned <= |s.requests|
  {
  }

  /** What the arrival of a call leaves alone, and what the loop then holds. */
  ghost predicate ArrivalOf(s: State, a: State, call: Call, destination: Destination)
  {
    && a.closed == s.closed && a.accepting == s.accepting && a.cutoff == s.cutoff && a.first == s.first
    && a.building == s.building && a.openedAt == s.openedAt && a.works == s.works && a.spawned == s.spawned
    && a.running == s.running && a.handshake == s.handshake && a.notified == s.notified && a.output == s.output
    && a.batchesRead == s.batchesRead && a.activated == s.activated
    && a.hand == (if call.id.Some? then Some(|s.requests|) else None)
    && a.scheduling == (destination.ToSingle? && call.id.Some?)
    && a.slack == (destination.ToBatch? && (call.id.Some? || call.target.Activates()))
    && a.requests == (if call.id.Some? then s.requests + [Request(call.id.value, destination, InHand)] else s.requests)
    && a.outstanding == (if call.id.Some? then s.outstanding + {call.id.value} else s.outstanding)
    && (destination.ToBatch? ==>
          destination.batch in a.batches &&
          (call.id.Some? ==> InRange(a.batches[destination.batch], |s.requests|)))
  }

  lemma AnnouncedSingleFields(s: State, id: RpcId, target: Method)
    requires !s.slack
    ensures ArrivalOf(s, AnnouncedSingle(s, id), NewCall(Some(id), target), ToSingle)
  {
  }

  lemma AnnouncedMemberFields(s: State, b: nat, id: RpcId, target: Method)
    requires b in s.batches && !s.scheduling
    requires s.batches[b].base + |s.batches[b].requestIds| == |s.requests|
    ensures ArrivalOf(s, AnnouncedMember(s, b, id), NewCall(Some(id), target), ToBatch(b))
  {
  }

  lemma AnnouncedNotificationFields(s: State, b: nat, target: Method)
    requires b in s.batches && !s.scheduling && s.hand.None? && target.Activates()
    ensures ArrivalOf(s, AnnouncedNotification(s, b), NewCall(None, target), ToBatch(b))
  {
  }

  lemma ArrivedFields(s: State, call: Call, destination: Destination)
    requires Free(s, destination)
    ensures ArrivalOf(s, Arrived(s, call, destination), call, destination)
  {
    hide AnnouncedSingle, AnnouncedMember, AnnouncedNotification;
    if destination.ToSingle? {
      if call.id.Some? { AnnouncedSingleFields(s, call.id.value, call.target); }
    } else if call.id.Some? {
      AnnouncedMemberFields(s, destination.batch, call.id.value, call.target);
    } else if call.target.Activates() {
      AnnouncedNotificationFields(s, destination.batch, call.target);
    }
  }

  /** The loop holds a call that has just arrived; `s` is the state before that. */
  ghost predicate Arriving(s: State, a: State, call: Call, destination: Destination, closeAfterError: bool)
  {
    && Valid(s) && Free(s, destination) && MayOpen(s, call, destination, closeAfterError)
    && (call.id.Some? ==> call.id.value !in s.outstanding)
    && a == Arrived(s, call, destination)
  }

  lemma ArrivedHand(s: State, a: State, call: Call, destination: Destination, closeAfterError: bool)
    requires Arriving(s, a, call, destination, closeAfterError)
    ensures call.id.Some? <==> a.hand.Some?
    ensures call.id.Some? && destination.ToSingle? ==> a.scheduling
    ensures Interfered(a, a)
  {
    hide Valid, Free, MayOpen, Interfered, Arrived;
    ArrivedFields(s, call, destination);
    NothingInterferes(a);
  }

  /** A call that arrives while the session does not accept is beyond the cutoff. */
  lemma LateCall(s: State, a: State, t: State, call: Call, destination: Destination,
                 closeAfterError: bool)
    requires Arriving(s, a, call, destination, closeAfterError) && Interfered(a, t)
    ensures !t.accepting ==> t.cutoff.Some? && (t.hand.Some? ==> t.cutoff.value <= t.hand.value)
  {
    hide Valid, MayOpen, Interfered, Replies, Quiet, Free, Arrived;
    KnownCutoff(s);
    ArrivedFields(s, call, destination);
    InterferenceIsFramed(a, t);
  }

  lemma AnsweredIsDecided(s: State, a: State, m: State, t: State, call: Call, destination: Destination,
                          closeAfterError: bool, reply: Option<Reply>)
    requires Arriving(s, a, call, destination, closeAfterError) && Interfered(a, m)
    requires !Supervised(call.target)
    requires Answered(m, t, call.id, destination, reply)
    ensures Decided(s, t, call, destination, closeAfterError, Immediate(reply))
  {
    hide Valid, MayOpen, Interfered, Framed, Free, Arrived, Freed, LostHand;
    var f := Freed(m, destination);
    ArrivedFields(s, call, destination);
    InterferenceIsFramed(a, m);
    FreedFields(m, destination);
    FramedTransitive(a, m, f);
    LostFields(a, f);
    if call.id.Some? && destination.ToSingle? {
      assert IdInHand(m) == {call.id.value};
      assert s.outstanding + {call.id.value} - {call.id.value} == s.outstanding;
    }
  }

  lemma DuplicateIsDecided(s: State, call: Call, destination: Destination, closeAfterError: bool, reply: Option<Reply>)
    requires Free(s, destination)
    requires call.id.Some? && call.id.value in s.outstanding
    requires reply.Some? ==> Unaddressed(reply.value)
    ensures Decided(s, s, call, destination, closeAfterError, Duplicate(reply))
  {
  }

  lemma LostIsDecided(s: State, a: State, t: State, call: Call, destination: Destination,
                      closeAfterError: bool)
    requires Arriving(s, a, call, destination, closeAfterError)
    requires t == LostHand(a.(closed := true))
    ensures Decided(s, t, call, destination, closeAfterError, Immediate(None))
  {
    hide Valid, MayOpen, Quiet, Replies, Free, Arrived;
    ArrivedFields(s, call, destination);
  }

  lemma DroppedIsDecided(s: State, a: State, m: State, call: Call, destination: Destination,
                         closeAfterError: bool)
    requires Arriving(s, a, call, destination, closeAfterError) && Interfered(a, m)
    requires !m.accepting || m.closed
    ensures Decided(s, DroppedHand(m), call, destination, closeAfterError, Immediate(None))
  {
    hide Valid, MayOpen, Interfered, Quiet, Replies, Free, Arrived;
    ArrivedFields(s, call, destination);
    InterferenceIsFramed(a, m);
  }

  lemma SpawnedIsDecided(s: State, a: State, m: State, call: Call, destination: Destination, closeAfterError: bool)
    requires call.target.Class().Some?
    requires Arriving(s, a, call, destination, closeAfterError) && Interfered(a, m)
    ensures Decided(s, Spawned(m, WorkOf(call, m.hand, destination, closeAfterError)), call, destination,
                    closeAfterError, Pending)
  {
    hide Valid, MayOpen, Interfered, Quiet, Replies, Free, Arrived;
    ArrivedFields(s, call, destination);
    InterferenceIsFramed(a, m);
  }

  lemma ArrivedIsSpawnable(s: State, a: State, t: State, call: Call, destination: Destination, closeAfterError: bool)
    requires Arriving(s, a, call, destination, closeAfterError) && Interfered(a, t)
    ensures Spawnable(t, WorkOf(call, t.hand, destination, closeAfterError))
  {
    hide Valid, Interfered, Quiet, Replies, Arrived;
    KnownCutoff(s);
    ArrivedFields(s, call, destination);
    InterferenceIsFramed(a, t);
  }

  /** The last frame is `f` and nothing before it concerns the session's lifecycle. */
  ghost predicate EndsQuietly(output: seq<Frame>, f: Frame)
  {
    |output| > 0 && output[|output| - 1] == f && Quiet(output[..|output| - 1])
  }

  lemma AppendEndsQuietly(output: seq<Frame>, f: Frame)
    requires Quiet(output)
    ensures EndsQuietly(output + [f], f)
  {
  }

  /** The loop's flags and tables are the same. */
  ghost predicate SameLoop(s: State, t: State)
  {
    t == s.(closed := t.closed, bound := t.bound, output := t.output,
            requests := t.requests, hand := t.hand, openedAt := t.openedAt)
  }

  /** The same requests, wherever their answers are. */
  predicate SameRequests(before: seq<Request>, after: seq<Request>)
  {
    && |before| == |after|
    && forall o :: 0 <= o < |before| ==> after[o].id == before[o].id && after[o].home == before[o].home
  }

  /** The requests so far are the same, and others may have arrived. */
  predicate Extends(before: seq<Request>, after: seq<Request>)
  {
    && |before| <= |after|
    && forall o :: 0 <= o < |before| ==> after[o].id == before[o].id && after[o].home == before[o].home
  }

  ghost predicate SingleQueued(s: State, t: State, r: Reply)
  {
    && SameLoop(s, t) && t.hand.None? && SameRequests(s.requests, t.requests)
    && (s.hand.None? ==> t.requests == s.requests)
    && Replies(t.output) == Replies(s.output) + [SingleFrame(r)]
    && EndsQuietly(t.output, SingleFrame(r))
    && (s.openedAt.Some? ==> t.openedAt == s.openedAt)
    && (s.openedAt.None? ==> (t.openedAt.Some? <==> OpeningReply(SingleFrame(r))))
  }

  ghost predicate NothingQueued(s: State, t: State)
  {
    SameLoop(s, t) && t.requests == s.requests && Replies(t.output) == Replies(s.output) && (Quiet(t.output) <==> Quiet(s.output)) &&
    t.openedAt == s.openedAt && t.hand == s.hand
  }

  lemma QueueSingle(s: State, m: State, r: Reply)
    requires Interfered(s, m) && Sendable(s, r)
    ensures Sendable(m, r) && m.requests == s.requests && m.hand == s.hand
    ensures NothingQueued(s, m.(closed := true))
  {
    hide Quiet, Replies, EndsQuietly, OnlyEvents;
    InterferenceKeepsReplies(s, m);
  }

  lemma QueuedSingle(s: State, m: State, r: Reply)
    requires Interfered(s, m) && Quiet(s.output)
    ensures SingleQueued(s, SentSingle(m, r), r)
    ensures Appended(s.output, SentSingle(m, r).output) && Appended(s.output, m.output)
  {
    hide Quiet, Replies, EndsQuietly, OnlyEvents;
    InterferenceKeepsReplies(s, m);
    RepliesOfAppend(m.output, SingleFrame(r));
    AppendEndsQuietly(m.output, SingleFrame(r));
  }

  lemma PlanStops(before: seq<Frame>, after: seq<Frame>, plan: seq<Frame>)
    requires Replies(after) == Replies(before)
    ensures Follows(before, after, plan, true)
  {
    assert Replies(after) == Replies(before) + plan[..0];
  }

  lemma PlanOfOneIsDone(before: seq<Frame>, after: seq<Frame>, f: Frame, ended: bool)
    requires Replies(after) == Replies(before) + [f]
    ensures Follows(before, after, [f], ended)
  {
    assert [f][..1] == [f];
  }

  /** What consuming a result must put on the output: the reply (alone, or as the last member of
      its batch), followed by the notice of a lifecycle failure it carries. */
  ghost function ResultPlan(s: State, w: nat, reply: Option<Reply>): seq<Frame>
    requires w in s.works
  {
    var k := s.works[w];
    match k.destination
    case ToSingle =>
      if reply.None? then []
      else [SingleFrame(reply.value)] + NoticeOf(reply.value.lifecycle)
    case ToBatch(b) =>
      if b !in s.batches then []
      else MemberPlan(AfterResult(s.batches[b], k, reply))
  }

  /** A batch is sent when it no longer waits for anything. */
  function MemberPlan(a: Assembly): seq<Frame>
  {
    if a.pending > 0 then [] else BatchPlan(a) + NoticeOf(a.lifecycle)
  }

  function BatchPlan(a: Assembly): seq<Frame>
  {
    if a.replies == [] then [] else [BatchFrame(a, Render(a.replies))]
  }

  /** A result answers its call exactly when the call has an id; a success carries no failure. */
  predicate Answers(k: Work, reply: Option<Reply>)
  {
    && (reply.Some? <==> k.id.Some?)
    && (reply.Some? ==> reply.value.id == k.id.value && reply.value.origin == k.origin &&
                        (reply.value.success ==> reply.value.lifecycle.None?))
  }

  lemma TakenIsSendable(s: State, w: nat, reply: Option<Reply>)
    requires Valid(s) && Idle(s) && s.running && w in s.works
    requires s.works[w].destination.ToSingle? && Answers(s.works[w], reply)
    ensures var t := Taken(s, w);
            && !t.scheduling && !t.notified && Quiet(t.output)
            && !t.first && t.building.None? && !t.slack && t.running && t.batchesRead == s.batchesRead
            && t.output == s.output && w !in t.works && t.openedAt == s.openedAt
            && (reply.None? ==> t.hand.None? && t.openedAt.Some?)
            && (reply.Some? ==> Sendable(t.(accepting := false), reply.value) &&
                                (reply.value.lifecycle.None? ==> Sendable(t, reply.value)) &&
                                t.hand.Some? && t.requests[t.hand.value].home == ToSingle)
            && (s.openedAt.None? ==>
                  s.works[w].closeAfterError && reply.Some? &&
                  (reply.value.success ==> OpeningReply(SingleFrame(reply.value))))
  {
  }

  /** The loop holds the answer to a single call. */
  ghost predicate Deliverable(s: State, work: Work, r: Reply)
  {
    && s.running && Sendable(s.(accepting := s.accepting && r.lifecycle.None?), r)
    && s.hand.Some? && s.requests[s.hand.value].home == ToSingle
    && (r.success ==> r.lifecycle.None?)
    && (s.openedAt.None? ==> work.closeAfterError && (r.success ==> OpeningReply(SingleFrame(r))))
  }

  /** Admission may have stopped before the reply is sent. */
  ghost predicate ReadyFrom(s: State, m: State)
  {
    && m == s.(closed := m.closed, bound := m.bound, output := m.output, accepting := m.accepting, cutoff := m.cutoff)
    && Replies(m.output) == Replies(s.output) && (Quiet(m.output) <==> Quiet(s.output))
  }

  lemma ReadyToDeliver(s: State, m: State, work: Work, r: Reply)
    requires Deliverable(s, work, r)
    requires if r.lifecycle.Some? then SuspendedFrom(s, m) else m == s
    ensures ReadyFrom(s, m) && Sendable(m, r)
    ensures m.hand.Some? ==> m.requests[m.hand.value].home == ToSingle
  {
  }

  /** The reply is queued and what it entails has happened, or the session has ended. */
  ghost predicate SingleDelivered(s: State, t: State, r: Reply, activates: bool)
  {
    && t == s.(closed := t.closed, bound := t.bound, output := t.output, activated := t.activated,
               accepting := t.accepting, cutoff := t.cutoff, notified := t.notified, running := t.running,
               requests := t.requests, hand := t.hand, openedAt := t.openedAt)
    && (t.running ==> !t.notified && Quiet(t.output) && t.hand.None? && t.openedAt.Some? && ActivatedBy(s, t, activates))
    && (!t.running ==> Settled(t) && t.closed)
    && Follows(s.output, t.output, [SingleFrame(r)] + NoticeOf(r.lifecycle), !t.running)
  }

  lemma QueuedIsFinishable(s: State, m: State, q: State, work: Work, r: Reply)
    requires Deliverable(s, work, r) && ReadyFrom(s, m) && Sendable(m, r) && SingleQueued(m, q, r)
    ensures q.running && !q.notified
    ensures r.lifecycle.None? ==> Quiet(q.output)
    ensures r.lifecycle.Some? ==> !q.accepting && Noticeable(q.output, r.lifecycle.value)
    ensures work.activateAfterSuccess && r.success ==> q.openedAt.Some?
    ensures q.openedAt.None? ==> work.closeAfterError && !r.success
  {
  }

  lemma DeliveryFinishes(s: State, m: State, q: State, t: State, r: Reply, activates: bool)
    requires ReadyFrom(s, m) && SingleQueued(m, q, r) && Finished(q, t, r.lifecycle, activates)
    requires t.running ==> q.openedAt.Some?
    ensures SingleDelivered(s, t, r, activates)
  {
    hide Quiet, Replies, Follows, EndsQuietly, Settled, NoticeOf;
    PlanContinues(s.output, q.output, t.output, [SingleFrame(r)], NoticeOf(r.lifecycle), !t.running);
  }

  lemma DeliveryStops(s: State, m: State, t: State, r: Reply, activates: bool)
    requires ReadyFrom(s, m) && Sendable(m, r) && NothingQueued(m, t) && t.closed
    ensures SingleDelivered(s, t.(running := false), r, activates)
  {
    hide Quiet, Replies, Follows, NoticeOf;
    PlanStops(s.output, t.output, [SingleFrame(r)] + NoticeOf(r.lifecycle));
  }

  lemma HandshakeEndKeepsValid(s: State)
    requires Valid(s)
    ensures Valid(s.(handshake := false))
  {
  }

  function NoticeOf(failure: Option<LifecycleFailure>): seq<Frame>
  {
    if failure.Some? then [NoticeFrame(failure.value)] else []
  }

  function AfterResult(a: Assembly, k: Work, reply: Option<Reply>): Assembly
  {
    var active := k.activateAfterSuccess && (reply.None? || reply.value.success);
    var c := a.(activateAfterSuccess := a.activateAfterSuccess || active,
                pending := if k.counts && a.pending > 0 then a.pending - 1 else a.pending);
    if reply.Some? then WithReply(c, reply.value, k.closeAfterError) else c
  }

  /** The output follows the plan; it stops short only because the session has ended. */
  ghost predicate Follows(before: seq<Frame>, after: seq<Frame>, plan: seq<Frame>, ended: bool)
  {
    exists n :: 0 <= n <= |plan| && Replies(after) == Replies(before) + plan[..n] && (n < |plan| ==> ended)
  }

  lemma CommasOfNext(replies: seq<Reply>, index: nat)
    requires index < |replies|
    ensures Commas(replies[..index + 1]) ==
              (if index == 0 then "" else Commas(replies[..index]) + ",") + replies[index].text
  {
    assert replies[..index + 1][..index] == replies[..index];
  }

  lemma PlanContinues(before: seq<Frame>, middle: seq<Frame>, after: seq<Frame>, done: seq<Frame>, rest: seq<Frame>, ended: bool)
    requires Replies(middle) == Replies(before) + done
    requires Follows(middle, after, rest, ended)
    ensures Follows(before, after, done + rest, ended)
  {
    var n :| 0 <= n <= |rest| && Replies(after) == Replies(middle) + rest[..n] && (n < |rest| ==> ended);
    assert (done + rest)[..|done| + n] == done + rest[..n];
  }

  lemma PlanIsEmpty(before: seq<Frame>, after: seq<Frame>, ended: bool)
    requires Replies(after) == Replies(before)
    ensures Follows(before, after, [], ended)
  {
    assert Replies(after) == Replies(before) + [][..0];
  }

  /** Nothing changed but the transport flag, the identity, the activation, and published events. */
  ghost predicate SameTables(s: State, t: State)
  {
    && t == s.(closed := t.closed, bound := t.bound, output := t.output, activated := t.activated)
    && Replies(t.output) == Replies(s.output) && (Quiet(t.output) <==> Quiet(s.output))
    && (!t.accepting ==> t.output == s.output)
  }

  lemma ActivationKeepsTables(s: State, m: State)
    requires Interfered(s, m)
    ensures SameTables(s, m) && SameTables(s, m.(activated := true))
    ensures m.openedAt == s.openedAt && m.activated == s.activated
  {
    hide Quiet, Replies, OnlyEvents;
    InterferenceKeepsReplies(s, m);
  }

  /** Events have been enabled if that was due and the session accepts and knows its user. */
  predicate ActivatedBy(s: State, t: State, activates: bool)
  {
    t.activated <==> s.activated || (activates && t.accepting && t.bound)
  }

  /** A notice if there is a failure, nothing else; the loop stops only in a settled state. */
  ghost predicate Finished(s: State, t: State, lifecycle: Option<LifecycleFailure>, activates: bool)
  {
    && t == s.(closed := t.closed, bound := t.bound, output := t.output, activated := t.activated,
               accepting := t.accepting, cutoff := t.cutoff, notified := t.notified, running := t.running)
    && (t.running ==> lifecycle.None? && !t.notified && Quiet(t.output) && ActivatedBy(s, t, activates))
    && (!t.running ==> Settled(t) && t.closed)
    && Follows(s.output, t.output, NoticeOf(lifecycle), !t.running)
  }

  lemma NothingFinishes(s: State)
    ensures SameTables(s, s)
  {
  }

  lemma FinishedByNotice(s: State, t: State, failure: LifecycleFailure, activates: bool)
    requires NotifiedFrom(s, t, failure)
    ensures Finished(s, t.(running := false), Some(failure), activates)
    ensures !t.scheduling == !s.scheduling
  {
    hide Quiet, Replies, Follows;
  }

  lemma FinishedQuietly(s: State, t: State, activates: bool)
    requires ActivatedBy(s, t, activates) && SameTables(s, t) && s.running && !s.notified && Quiet(s.output)
    ensures Finished(s, t, None, activates) && Finished(s, t.(closed := true, running := false), None, activates)
    ensures t.running && t.openedAt == s.openedAt
  {
    hide Quiet, Replies, Follows;
    PlanIsEmpty(s.output, t.output, false);
    PlanIsEmpty(s.output, t.output, true);
  }

  // ---------------------------------------------------------------- batches

  /** Batch `b` is the one the loop works on, and it waits for nothing. */
  ghost predicate Flushable(s: State, b: nat)
  {
    && s.building == Some(b) && !s.slack && s.hand.None? && !s.scheduling
    && b in s.batches && s.batches[b].pending == 0
    && Quiet(s.output) && !s.notified
  }

  /** The frame of batch `a`, if it has one, is the only reply queued since `before`. */
  ghost predicate BatchSent(before: seq<Frame>, after: seq<Frame>, a: Assembly)
  {
    && Replies(after) == Replies(before) + BatchPlan(a)
    && (a.replies == [] ==> Quiet(after))
    && (a.replies != [] ==> EndsQuietly(after, BatchFrame(a, Render(a.replies))))
  }

  /** The batch has left the tables, its ids are free, and its frame is queued. */
  ghost predicate FlushedFrom(s: State, t: State, b: nat)
    requires b in s.batches
  {
    && t == s.(closed := t.closed, bound := t.bound, output := t.output, requests := t.requests,
               batches := s.batches - {b}, building := None,
               outstanding := s.outstanding - IdsOf(s.batches[b]), owners := t.owners)
    && SameRequests(s.requests, t.requests)
    && BatchSent(s.output, t.output, s.batches[b])
  }

  lemma StillFlushable(s: State, m: State, b: nat)
    requires Interfered(s, m) && Flushable(s, b)
    ensures Flushable(m, b) && m.batches == s.batches
  {
  }

  lemma BatchIsSent(before: seq<Frame>, met: seq<Frame>, a: Assembly)
    requires Replies(met) == Replies(before) && Quiet(met)
    ensures BatchSent(before, if a.replies == [] then met else met + [BatchFrame(a, Render(a.replies))], a)
  {
  }

  /** A completed batch has been answered in full, or the session has ended. */
  ghost predicate Completed(s: State, t: State, b: nat, activates: bool)
    requires b in s.batches
  {
    && t == s.(closed := t.closed, bound := t.bound, output := t.output, activated := t.activated,
               accepting := t.accepting, cutoff := t.cutoff, notified := t.notified, running := t.running,
               batches := t.batches, building := t.building, outstanding := t.outstanding,
               owners := t.owners, requests := t.requests)
    && (t.running ==> t.building.None? && !t.notified && Quiet(t.output) && ActivatedBy(s, t, activates) &&
                      t.batches == s.batches - {b} && SameRequests(s.requests, t.requests))
    && (!t.running ==> Settled(t) && t.closed)
    && Follows(s.output, t.output, BatchPlan(s.batches[b]) + NoticeOf(s.batches[b].lifecycle), !t.running)
  }

  lemma FlushableBatch(s: State, b: nat)
    requires Flushable(s, b)
    ensures b in s.batches && !s.notified
  {
  }

  lemma BatchFinishes(s: State, q: State, t: State, b: nat, activates: bool)
    requires b in s.batches && FlushedFrom(s, q, b) && Finished(q, t, s.batches[b].lifecycle, activates)
    requires s.batches[b].lifecycle == First(s.batches[b].replies)
    ensures Completed(s, t, b, activates)
  {
    hide Quiet, Replies, Follows, EndsQuietly, Settled, BatchPlan, NoticeOf;
    PlanContinues(s.output, q.output, t.output, BatchPlan(s.batches[b]), NoticeOf(s.batches[b].lifecycle), !t.running);
  }

  lemma BatchLifecycle(s: State, b: nat)
    requires Valid(s) && b in s.batches
    ensures s.batches[b].lifecycle == First(s.batches[b].replies)
    ensures s.batches[b].lifecycle.Some? ==> !s.accepting
  {
  }

  lemma FlushedMeans(s: State, t: State, b: nat)
    requires b in s.batches && FlushedFrom(s, t, b) && s.batches[b].lifecycle == First(s.batches[b].replies)
    ensures s.batches[b].lifecycle.None? ==> Quiet(t.output)
    ensures s.batches[b].lifecycle.Some? ==> Noticeable(t.output, s.batches[b].lifecycle.value)
    ensures Replies(t.output) == Replies(s.output) + BatchPlan(s.batches[b])
    ensures t.notified == s.notified && t.running == s.running && t.openedAt == s.openedAt && t.accepting == s.accepting
  {
  }

  lemma FailedFlushStops(s: State, t: State, b: nat, activates: bool)
    requires Interfered(s, t) && Flushable(s, b)
    ensures Completed(s, t.(closed := true, running := false), b, activates)
  {
    hide Replies, Quiet, Follows, Interfered;
    InterferenceKeepsReplies(s, t);
    PlanStops(s.output, t.output, BatchPlan(s.batches[b]) + NoticeOf(s.batches[b].lifecycle));
  }

  lemma RenderedFrame(s: State, b: nat, text: string)
    requires b in s.batches && s.batches[b].replies != [] && text == Render(s.batches[b].replies)
    ensures Flushed(s, b) == Flushed(s, b).(output := s.output + [BatchFrame(s.batches[b], text)])
  {
  }

  lemma FlushAfterWait(s: State, m: State, b: nat)
    requires Interfered(s, m) && b in s.batches && Quiet(s.output)
    ensures b in m.batches && FlushedFrom(s, Flushed(m, b), b)
  {
    hide Quiet, Replies, BatchSent, OnlyEvents, Render, IdsOf;
    InterferenceKeepsReplies(s, m);
    BatchIsSent(s.output, m.output, s.batches[b]);
  }

  function Activating(a: Assembly, k: Work, reply: Option<Reply>): Assembly
  {
    a.(activateAfterSuccess := a.activateAfterSuccess || (k.activateAfterSuccess && (reply.None? || reply.value.success)))
  }

  /** The loop holds the outcome of a counted member of batch `b`. */
  ghost predicate Collectable(s: State, b: nat, k: Work, reply: Option<Reply>)
  {
    && s.building == Some(b) && s.slack && !s.scheduling && b in s.batches && k.counts
    && (reply.None? ==> s.hand.None?)
    && (reply.Some? ==> Pushable(b, s.batches[b], s.requests, s.hand, s.accepting, reply.value))
  }

  function Collected(s: State, b: nat, k: Work, reply: Option<Reply>): State
    requires b in s.batches
  {
    s.(batches := s.batches[b := AfterResult(s.batches[b], k, reply)], slack := false,
       requests := if reply.Some? then Moved(s.requests, s.hand, Assembled(|s.batches[b].replies|)) else s.requests,
       hand := None)
  }

  function Flagged(s: State, b: nat, k: Work, reply: Option<Reply>): State
    requires b in s.batches
  {
    s.(batches := s.batches[b := Activating(s.batches[b], k, reply)])
  }

  /** The flags first, then the count, then the reply. */
  lemma AfterResultInSteps(a: Assembly, k: Work, reply: Option<Reply>)
    requires a.pending > 0 && k.counts
    ensures Activating(a, k, reply).pending == a.pending
    ensures var c := Activating(a, k, reply).(pending := a.pending - 1);
            && c.replies == a.replies
            && AfterResult(a, k, reply) == if reply.Some? then WithReply(c, reply.value, k.closeAfterError) else c
  {
    hide WithReply;
  }

  lemma MapTwice<K, V>(m: map<K, V>, k: K, v: V, w: V)
    ensures m[k := v][k := w] == m[k := w]
  {
  }

  lemma WithdrawnFields(s: State, b: nat, k: Work, reply: Option<Reply>)
    requires b in s.batches && s.batches[b].pending > 0
    ensures b in Flagged(s, b, k, reply).batches && Flagged(s, b, k, reply).batches[b].pending > 0
    ensures var a := Activating(s.batches[b], k, reply);
            Withdrawn(Flagged(s, b, k, reply), b) == s.(batches := s.batches[b := a.(pending := a.pending - 1)], slack := false)
  {
    var a := Activating(s.batches[b], k, reply);
    MapTwice(s.batches, b, a, a.(pending := a.pending - 1));
    hide Activating;
  }

  lemma CollectedInSteps(s: State, b: nat, k: Work, reply: Option<Reply>)
    requires Collectable(s, b, k, reply) && s.batches[b].pending > 0
    ensures b in Flagged(s, b, k, reply).batches && Flagged(s, b, k, reply).batches[b].pending > 0
    ensures var m := Withdrawn(Flagged(s, b, k, reply), b);
            Collected(s, b, k, reply) == if reply.Some? then Pushed(m, b, reply.value, k.closeAfterError) else m
  {
    hide WithReply, Moved, Pushable, AfterResult, Activating, Withdrawn, Flagged;
    AfterResultInSteps(s.batches[b], k, reply);
    WithdrawnFields(s, b, k, reply);
    if reply.Some? {
      var a := Withdrawn(Flagged(s, b, k, reply), b).batches[b];
      MapTwice(s.batches, b, a, WithReply(a, reply.value, k.closeAfterError));
    }
  }

  lemma CollectKeepsValid(s: State, b: nat, k: Work, reply: Option<Reply>)
    requires Valid(s) && Collectable(s, b, k, reply)
    ensures Valid(Collected(s, b, k, reply))
  {
    hide Valid, Pushable, WithReply, AfterResult, Collected;
    WaitingForCall(s, b);
    CollectedInSteps(s, b, k, reply);
    FlagKeepsValid(s, b, Activating(s.batches[b], k, reply));
    var m := Withdrawn(Flagged(s, b, k, reply), b);
    WithdrawKeepsValid(Flagged(s, b, k, reply), b);
    if reply.Some? {
      StillPushable(s, m, b, reply.value);
      PushKeepsValid(m, b, reply.value, k.closeAfterError);
    }
  }

  /** Members and replies are untouched, so the reply in hand can still be pushed. */
  lemma StillPushable(s: State, t: State, b: nat, r: Reply)
    requires b in s.batches && b in t.batches && SameMembers(s.batches[b], t.batches[b])
    requires t.requests == s.requests && t.hand == s.hand && t.accepting == s.accepting
    requires Pushable(b, s.batches[b], s.requests, s.hand, s.accepting, r)
    ensures Pushable(b, t.batches[b], t.requests, t.hand, t.accepting, r)
  {
  }

  /** The loop holds the outcome of a counted member; a lifecycle failure in it stops admission. */
  ghost predicate Countable(s: State, b: nat, k: Work, reply: Option<Reply>)
  {
    && s.running && !s.notified && Quiet(s.output) && s.openedAt.Some?
    && Collectable(s.(accepting := s.accepting && LifecycleOf(reply).None?), b, k, reply)
  }

  function LifecycleOf(reply: Option<Reply>): Option<LifecycleFailure>
  {
    if reply.Some? then reply.value.lifecycle else None
  }

  /** The member's batch has been put back or, if it is complete, answered in full. */
  ghost predicate MemberCounted(s: State, t: State, b: nat, k: Work, reply: Option<Reply>)
    requires b in s.batches
  {
    && t == s.(closed := t.closed, bound := t.bound, output := t.output, activated := t.activated,
               accepting := t.accepting, cutoff := t.cutoff, notified := t.notified, running := t.running,
               batches := t.batches, building := t.building, outstanding := t.outstanding,
               owners := t.owners, requests := t.requests, hand := None, slack := false)
    && (t.running ==> t.building.None? && !t.notified && Quiet(t.output) &&
                      ActivatedBy(s, t, Enables(AfterResult(s.batches[b], k, reply))))
    && (!t.running ==> Settled(t) && t.closed)
    && Follows(s.output, t.output, MemberPlan(AfterResult(s.batches[b], k, reply)), !t.running)
  }

  /** A batch enables events when it is complete and one of its calls asked for it. */
  predicate Enables(a: Assembly) { a.pending == 0 && a.activateAfterSuccess }

  /** Whether consuming a result enables events. */
  predicate ResultEnables(s: State, w: nat, reply: Option<Reply>)
    requires w in s.works
  {
    var k := s.works[w];
    match k.destination
    case ToSingle => k.activateAfterSuccess && (reply.None? || reply.value.success)
    case ToBatch(b) => b in s.batches && k.counts && Enables(AfterResult(s.batches[b], k, reply))
  }

  lemma ReadyToCollect(s: State, m: State, b: nat, k: Work, reply: Option<Reply>)
    requires Countable(s, b, k, reply)
    requires if LifecycleOf(reply).Some? then SuspendedFrom(s, m) else m == s
    ensures ReadyFrom(s, m) && Collectable(m, b, k, reply) && b in s.batches && b in m.batches
    ensures b in Collected(m, b, k, reply).batches &&
            Collected(m, b, k, reply).batches[b] == AfterResult(s.batches[b], k, reply)
  {
  }

  lemma MemberWaits(s: State, m: State, b: nat, k: Work, reply: Option<Reply>)
    requires Countable(s, b, k, reply) && ReadyFrom(s, m) && b in s.batches && b in m.batches
    requires AfterResult(s.batches[b], k, reply).pending > 0
    ensures var c := Collected(m, b, k, reply);
            && c.building == Some(b) && !c.slack && !c.scheduling && b in c.batches && c.batches[b].pending > 0
            && MemberCounted(s, c.(building := None), b, k, reply)
  {
    hide Quiet, Replies, AfterResult, Pushable, Follows;
    PlanIsEmpty(s.output, m.output, false);
  }

  lemma MemberCompletes(s: State, m: State, b: nat, k: Work, reply: Option<Reply>)
    requires Countable(s, b, k, reply) && ReadyFrom(s, m) && b in s.batches && b in m.batches
    requires AfterResult(s.batches[b], k, reply).pending == 0
    ensures var c := Collected(m, b, k, reply);
            Flushable(c, b) && c.running && c.openedAt.Some?
  {
  }

  lemma MemberCompleted(s: State, m: State, t: State, b: nat, k: Work, reply: Option<Reply>)
    requires Countable(s, b, k, reply) && ReadyFrom(s, m) && b in s.batches && b in m.batches
    requires AfterResult(s.batches[b], k, reply).pending == 0
    requires Completed(Collected(m, b, k, reply), t, b, AfterResult(s.batches[b], k, reply).activateAfterSuccess)
    ensures MemberCounted(s, t, b, k, reply)
  {
    hide Quiet, Replies, AfterResult, Pushable, Settled, BatchPlan, NoticeOf, Moved;
  }

  /** A counted member's batch is there to be told of the outcome. */
  lemma CountedIsCollectable(s: State, w: nat, reply: Option<Reply>)
    requires Valid(s) && Idle(s) && s.running && w in s.works && s.openedAt.Some?
    requires var k := s.works[w]; k.destination.ToBatch? && k.counts && Answers(k, reply)
    ensures var k := s.works[w]; var b := k.destination.batch;
            b in s.batches && Countable(Taken(s, w), b, k, reply)
  {
    hide Quiet, Replies;
    assert WorkValid(w, s.works[w], s.spawned, s.requests, s.batches);
  }

  /** Any other member leaves its batch alone, which still waits for something. */
  lemma UncountedPlan(s: State, w: nat, reply: Option<Reply>)
    requires Valid(s) && Idle(s) && s.running && w in s.works
    requires var k := s.works[w]; k.destination.ToBatch? && !k.counts && Answers(k, reply)
    ensures s.works[w].origin.None? && ResultPlan(s, w, reply) == []
  {
    hide Quiet, Replies;
    var b := s.works[w].destination.batch;
    assert WorkValid(w, s.works[w], s.spawned, s.requests, s.batches);
    if b in s.batches { assert s.batches[b].pending > 0; }
  }

  /** An ordinary notification of a batch is not waited for; every other result is counted. */
  lemma TakenIsCountable(s: State, w: nat, reply: Option<Reply>)
    requires Valid(s) && Idle(s) && s.running && w in s.works
    requires s.works[w].destination.ToBatch? && Answers(s.works[w], reply)
    ensures var k := s.works[w]; var b := k.destination.batch; var t := Taken(s, w);
            && w !in t.works && t.batchesRead == s.batchesRead && t.output == s.output && t.batches == s.batches
            && !t.first && t.openedAt.Some? && !t.scheduling && !t.notified && t.running && Quiet(t.output)
            && (k.counts ==> b in s.batches && Countable(t, b, k, reply))
            && (!k.counts ==> t.hand.None? && t.building.None? && !t.slack && ResultPlan(s, w, reply) == [])
  {
    assert !s.first && s.openedAt.Some? by {
      hide Quiet, Replies;
      assert WorkValid(w, s.works[w], s.spawned, s.requests, s.batches);
    }
    hide Valid, Quiet, Replies, Countable, ResultPlan, Answers, Moved;
    if s.works[w].counts { CountedIsCollectable(s, w, reply); } else { UncountedPlan(s, w, reply); }
  }

  // ---------------------------------------------------------------- reading

  /** The id of an item that is a call to be answered. */
  function IdsOfItem(item: RpcItem): seq<RpcId>
  {
    if item.Call? && item.call.id.Some? then [item.call.id.value] else []
  }

  /** How many items of a batch are invalid. */
  function InvalidItems(items: seq<RpcItem>): nat
  {
    if items == [] then 0
    else InvalidItems(items[..|items| - 1]) + if items[|items| - 1].Invalid? then 1 else 0
  }

  /** Exactly the calls with ids `ids` have arrived, in order, to be answered at `home`. */
  ghost predicate Announced(before: seq<Request>, after: seq<Request>, ids: seq<RpcId>, home: Destination)
  {
    && |after| == |before| + |ids|
    && (forall o :: 0 <= o < |before| ==> after[o].id == before[o].id && after[o].home == before[o].home)
    && (forall i :: 0 <= i < |ids| ==> after[|before| + i].id == ids[i] && after[|before| + i].home == home)
  }

  /** The scheduled single call is under way, given up, or to be answered at once. */
  lemma SingleScheduled(s: State, t: State, call: Call, closeAfterError: bool, r: Scheduled)
    requires Idle(s) && s.running && !s.first
    requires Decided(s, t, call, ToSingle, closeAfterError, r)
    ensures r.Duplicate? ==> t == s && (r.reply.Some? ==> Unaddressed(r.reply.value))
    ensures Appended(s.output, t.output)
    ensures !r.Duplicate? ==>
              && t.running && !t.first && t.batchesRead == s.batchesRead
              && Announced(s.requests, t.requests, if call.id.Some? then [call.id.value] else [], ToSingle)
              && (r == Pending || r == Immediate(None) ==> Idle(t))
              && (r.Immediate? && r.reply.Some? ==>
                    && Unrefusing(r.reply.value) && Sendable(t, r.reply.value) && t.hand.Some? && t.requests[t.hand.value].home == ToSingle
                    && Idle(t.(hand := None)))
  {
    hide Quiet, Replies, Arrived;
    ArrivedFields(s, call, ToSingle);
  }

  lemma AnsweredAtOnce(s: State, t: State, r: Reply)
    requires Idle(s.(hand := None)) && s.running && !s.first && SingleQueued(s, t, r) && Unrefusing(r)
    ensures Idle(t) && t.running && !t.first && t.batchesRead == s.batchesRead && SameRequests(s.requests, t.requests)
  {
  }

  lemma NotSent(s: State, t: State)
    requires NothingQueued(s, t) && Quiet(s.output) && !s.notified
    ensures Settled(t) && !t.notified && Quiet(t.output)
  {
  }

  /** An error reply that carries no failure of the session. */
  predicate Unrefusing(r: Reply) { !r.success && r.lifecycle.None? }

  lemma QuietEnd(output: seq<Frame>, r: Reply)
    requires EndsQuietly(output, SingleFrame(r)) && r.lifecycle.None?
    ensures Quiet(output)
  {
  }

  lemma StillAnnounced(before: seq<Request>, held: seq<Request>, after: seq<Request>, ids: seq<RpcId>, home: Destination)
    requires Announced(before, held, ids, home) && SameRequests(held, after)
    ensures Announced(before, after, ids, home)
  {
    forall i | 0 <= i < |ids|
      ensures after[|before| + i].id == ids[i] && after[|before| + i].home == home
    {
      assert held[|before| + i].id == ids[i] && held[|before| + i].home == home;
    }
  }

  /** What reading one item does to the batch being built, when the session goes on. */
  ghost predicate MemberRead(s: State, t: State, b: nat, item: RpcItem)
    requires b in s.batches
  {
    && t == s.(closed := t.closed, bound := t.bound, output := t.output, batches := t.batches, requests := t.requests,
               outstanding := t.outstanding, owners := t.owners, works := t.works, spawned := t.spawned)
    && b in t.batches && t.batches == s.batches[b := t.batches[b]]
    && t.batches[b].requestIds == s.batches[b].requestIds + IdsOfItem(item)
    && t.batches[b].invalid == s.batches[b].invalid + (if item.Invalid? then 1 else 0)
    && t.batches[b].base == s.batches[b].base && t.batches[b].lifecycle == s.batches[b].lifecycle
    && t.batches[b].activateAfterSuccess == s.batches[b].activateAfterSuccess
    && t.batches[b].closeAfterError == s.batches[b].closeAfterError
    && |t.requests| == |s.requests| + |IdsOfItem(item)| && Extends(s.requests, t.requests)
    && Replies(t.output) == Replies(s.output) && (Quiet(t.output) <==> Quiet(s.output))
  }

  lemma DuplicateEnds(s: State, t: State, call: Call, destination: Destination, r: Scheduled)
    requires destination.ToBatch? ==> destination.batch in s.batches
    requires Decided(s, t, call, destination, false, r) && r.Duplicate?
    ensures t == s && (r.reply.Some? ==> r.reply.value.origin.None? && Unrefusing(r.reply.value))
  {
  }

  lemma MayAlwaysSchedule(s: State, call: Call, destination: Destination)
    requires s.openedAt.Some?
    ensures MayOpen(s, call, destination, false)
  {
  }

  lemma ReadingMeans(s: State, b: nat)
    requires Reading(s, b)
    ensures s.building == Some(b) && b in s.batches && s.hand.None? && !s.scheduling && s.running && s.openedAt.Some?
    ensures Quiet(s.output) && !s.notified
  {
  }

  lemma StillRunning(s: State, t: State, b: nat, call: Call)
    requires Reading(s, b) && MemberDecided(s, t, b, call)
    ensures t.running && !t.scheduling && t.building == Some(b) && b in t.batches
  {
  }

  /** The loop is building batch `b`. */
  ghost predicate Reading(s: State, b: nat)
  {
    && s.running && !s.first && !s.handshake && s.openedAt.Some? && !s.notified && Quiet(s.output)
    && s.hand.None? && !s.scheduling && !s.slack
    && s.building == Some(b) && b in s.batches
    && s.batches[b].base + |s.batches[b].requestIds| == |s.requests|
  }

  lemma ReadingGoesOn(s: State, t: State, b: nat, item: RpcItem)
    requires Reading(s, b) && MemberRead(s, t, b, item)
    ensures Reading(t, b)
  {
  }

  lemma IgnoredMember(s: State, b: nat)
    requires b in s.batches
    ensures MemberRead(s, s, b, PeerResponse)
  {
  }

  lemma InvalidMember(s: State, b: nat, reply: Reply, item: RpcItem)
    requires Reading(s, b) && Unaddressed(reply) && item.Invalid?
    ensures Pushable(b, s.batches[b], s.requests, s.hand, s.accepting, reply)
    ensures MemberRead(s, Pushed(s, b, reply, false), b, item)
  {
  }

  /** The batch as it is while the loop waits for the scheduler's decision on a counted call. */
  function Awaiting(a: Assembly, call: Call): Assembly
  {
    if call.id.Some? || call.target.Activates() then Joined(a, call.id) else a
  }

  lemma ArrivedMember(s: State, b: nat, call: Call)
    requires Reading(s, b)
    ensures Free(s, ToBatch(b))
    ensures Arrived(s, call, ToBatch(b)).batches == s.batches[b := Awaiting(s.batches[b], call)]
  {
    hide Quiet, Replies;
    assert s.batches[b := s.batches[b]] == s.batches;
  }

  /** The scheduler's decision, as far as the batch is concerned. */
  ghost predicate MemberDecided(s: State, t: State, b: nat, call: Call)
    requires b in s.batches
  {
    && t == s.(closed := t.closed, bound := t.bound, output := t.output, batches := t.batches, requests := t.requests,
               outstanding := t.outstanding, owners := t.owners, works := t.works, spawned := t.spawned,
               hand := t.hand, slack := t.slack)
    && t.batches == s.batches[b := Awaiting(s.batches[b], call)]
    && |t.requests| == |s.requests| + (if call.id.Some? then 1 else 0) && Extends(s.requests, t.requests)
    && Replies(t.output) == Replies(s.output) && (Quiet(t.output) <==> Quiet(s.output))
  }

  lemma MemberIsDecided(s: State, t: State, b: nat, call: Call, r: Scheduled)
    requires Reading(s, b) && Decided(s, t, call, ToBatch(b), false, r) && !r.Duplicate?
    ensures MemberDecided(s, t, b, call)
    ensures r.Pending? || (r.Immediate? && r.reply.None?) ==> t.hand.None?
    ensures r.Pending? ==> !t.slack
    ensures r.Immediate? ==> t.slack == (call.id.Some? || call.target.Activates())
    ensures r.Immediate? && r.reply.Some? ==>
              && call.id.Some? && t.hand == Some(|s.requests|) && Rejection(r.reply.value, call.id.value, t.hand)
              && |t.requests| == |s.requests| + 1
              && t.requests[|s.requests|].id == call.id.value && t.requests[|s.requests|].home == ToBatch(b)
  {
    hide Quiet, Replies, Arrived;
    ArrivedMember(s, b, call);
    ArrivedFields(s, call, ToBatch(b));
  }

  lemma DecidedAppends(s: State, t: State, b: nat, call: Call)
    requires b in s.batches && MemberDecided(s, t, b, call)
    ensures Appended(s.output, t.output)
  {
  }

  lemma PendingMember(s: State, t: State, b: nat, call: RpcCall, target: Method)
    requires Reading(s, b) && MemberDecided(s, t, b, NewCall(call.id, target)) && t.hand.None? && !t.slack
    ensures MemberRead(s, t, b, RpcItem.Call(call))
  {
  }

  lemma WithdrawnMember(s: State, t: State, b: nat, call: RpcCall, target: Method)
    requires Reading(s, b) && MemberDecided(s, t, b, NewCall(call.id, target)) && t.hand.None? && t.slack
    requires call.id.Some? || target.Activates()
    ensures t.building == Some(b) && b in t.batches && t.batches[b].pending > 0
    ensures MemberRead(s, Withdrawn(t, b), b, RpcItem.Call(call))
  {
  }

  lemma AnsweredMember(s: State, t: State, b: nat, call: RpcCall, target: Method, r: Reply)
    requires Reading(s, b) && MemberDecided(s, t, b, NewCall(call.id, target)) && call.id.Some? && t.slack
    requires t.hand == Some(|s.requests|) && Rejection(r, call.id.value, t.hand) && |t.requests| == |s.requests| + 1
    requires t.requests[|s.requests|] == Request(call.id.value, ToBatch(b), InHand)
    ensures t.building == Some(b) && b in t.batches && t.batches[b].pending > 0
    ensures var m := Withdrawn(t, b);
            && Pushable(b, m.batches[b], m.requests, m.hand, m.accepting, r)
            && MemberRead(s, Pushed(m, b, r, false), b, RpcItem.Call(call))
  {
    hide Quiet, Replies;
  }

  lemma RequestInHand(s: State)
    requires Valid(s)
    ensures s.hand.Some? ==> s.hand.value < |s.requests| && s.requests[s.hand.value].fate == InHand
  {
  }

  /** The first `i` items of a batch have been read since `s`. */
  ghost predicate BatchRead(s: State, t: State, b: nat, items: seq<RpcItem>, i: nat)
    requires i <= |items|
  {
    && Reading(t, b) && b !in s.batches && t.batches - {b} == s.batches
    && t.batchesRead == s.batchesRead + 1 && Extends(s.requests, t.requests)
    && t.batches[b].base == |s.requests|
    && t.batches[b].requestIds == CallIds(items[..i]) && t.batches[b].invalid == InvalidItems(items[..i])
    && t.batches[b].lifecycle.None? && !t.batches[b].activateAfterSuccess && !t.batches[b].closeAfterError
    && Replies(t.output) == Replies(s.output)
  }

  lemma BatchBegins(s: State, items: seq<RpcItem>)
    requires Idle(s) && s.running && !s.first && !s.handshake && s.batchesRead !in s.batches
    ensures BatchRead(s, Begun(s), s.batchesRead, items, 0)
  {
  }

  lemma BatchGoesOn(s: State, m: State, t: State, b: nat, items: seq<RpcItem>, i: nat)
    requires i < |items| && BatchRead(s, m, b, items, i) && MemberRead(m, t, b, items[i])
    ensures BatchRead(s, t, b, items, i + 1)
  {
    hide Quiet, Replies, Reading;
    ReadingGoesOn(m, t, b, items[i]);
    assert items[..i + 1][..i] == items[..i];
    assert t.batches - {b} == m.batches - {b} by {
      assert m.batches[b := t.batches[b]] - {b} == m.batches - {b};
    }
  }

  lemma NextBatchIsFresh(s: State)
    requires Valid(s)
    ensures s.batchesRead !in s.batches
  {
  }

  lemma BatchMembersArrived(s: State, b: nat)
    requires Valid(s) && b in s.batches
    ensures var a := s.batches[b];
            && a.base + |a.requestIds| <= |s.requests|
            && forall o :: a.base <= o < a.base + |a.requestIds| ==>
                 s.requests[o].id == a.requestIds[o - a.base] && s.requests[o].home == ToBatch(b)
  {
    assert MembersValid(b, s.batches[b], s.batchesRead, s.requests);
  }

  /** A batch that has been read in full waits in the table for its calls, or has been answered. */
  ghost predicate BatchHandled(s: State, t: State, items: seq<RpcItem>)
  {
    && !t.first && t.batchesRead == s.batchesRead + 1
    && Announced(s.requests, t.requests, CallIds(items), ToBatch(s.batchesRead))
    && exists a: Assembly ::
         && a.requestIds == CallIds(items) && a.invalid == InvalidItems(items)
         && Replies(t.output) == Replies(s.output) + MemberPlan(a)
         && t.batches == if a.pending > 0 then s.batches[s.batchesRead := a] else s.batches
  }

  /** Exactly the calls of the batch have arrived once it has been read in full. */
  lemma CallsAnnounced(s: State, t: State, b: nat, items: seq<RpcItem>)
    requires BatchRead(s, t, b, items, |items|) && b == s.batchesRead && Valid(t)
    ensures Announced(s.requests, t.requests, CallIds(items), ToBatch(b))
    ensures t.batches[b].requestIds == CallIds(items) && t.batches[b].invalid == InvalidItems(items)
  {
    hide Valid, Quiet, Replies, InvalidItems, CallIds;
    BatchMembersArrived(t, b);
    assert items[..|items|] == items;
  }

  lemma AnnouncedStill(s: State, m: State, t: State, items: seq<RpcItem>, b: nat)
    requires Announced(s.requests, m.requests, CallIds(items), ToBatch(b)) && SameRequests(m.requests, t.requests)
    ensures Announced(s.requests, t.requests, CallIds(items), ToBatch(b))
  {
    hide CallIds;
    StillAnnounced(s.requests, m.requests, t.requests, CallIds(items), ToBatch(b));
  }

  lemma BatchWaits(s: State, t: State, b: nat, items: seq<RpcItem>)
    requires BatchRead(s, t, b, items, |items|) && b == s.batchesRead && Valid(t) && t.batches[b].pending > 0
    ensures Idle(t.(building := None)) && BatchHandled(s, t.(building := None), items)
  {
    hide Valid, Quiet, Replies, InvalidItems, Announced, CallIds;
    CallsAnnounced(s, t, b, items);
    assert Replies(s.output) + [] == Replies(s.output);
    assert t.batches == s.batches[b := t.batches[b]] by {
      assert t.batches == (t.batches - {b})[b := t.batches[b]];
    }
  }

  lemma BatchAnswered(s: State, m: State, t: State, b: nat, items: seq<RpcItem>)
    requires BatchRead(s, m, b, items, |items|) && b == s.batchesRead && Valid(m) && m.batches[b].pending == 0
    requires Completed(m, t, b, false)
    ensures Idle(t)
    ensures t.running ==> BatchHandled(s, t, items)
  {
    hide Valid, Quiet, Replies, Follows, Settled, BatchPlan, InvalidItems, Announced, CallIds;
    if t.running {
      CallsAnnounced(s, m, b, items);
      AnnouncedStill(s, m, t, items, b);
      FollowsAll(m.output, t.output, BatchPlan(m.batches[b]) + []);
      assert BatchPlan(m.batches[b]) + [] == BatchPlan(m.batches[b]);
      assert MemberPlan(m.batches[b]) == BatchPlan(m.batches[b]);
    }
  }

  lemma FollowsAll(before: seq<Frame>, after: seq<Frame>, plan: seq<Frame>)
    requires Follows(before, after, plan, false)
    ensures Replies(after) == Replies(before) + plan
  {
  }

  lemma BatchCompletes(s: State, m: State, b: nat, items: seq<RpcItem>)
    requires BatchRead(s, m, b, items, |items|) && m.batches[b].pending == 0
    ensures Flushable(m, b) && m.running && m.openedAt.Some?
  {
  }

  lemma FirstMessageKeepsValid(s: State)
    requires Valid(s) && s.first
    ensures Valid(s.(first := false)) && Valid(s.(first := false, handshake := true))
    ensures s.requests == [] && s.openedAt.None? && !s.handshake
  {
  }

  function IdsOfMessage(m: RpcMessage): seq<RpcId>
  {
    if m.Single? then IdsOfItem(m.item) else CallIds(m.items)
  }

  lemma BatchIsAnnounced(s: State, t: State, items: seq<RpcItem>)
    requires BatchHandled(s, t, items)
    ensures !t.first && t.batchesRead == s.batchesRead + 1
    ensures Announced(s.requests, t.requests, CallIds(items), ToBatch(s.batchesRead))
  {
  }

  lemma IdleMeans(s: State)
    requires Idle(s) && s.running
    ensures s.hand.None? && !s.scheduling && s.building.None? && !s.slack && Quiet(s.output) && !s.notified
    ensures !s.first && !s.handshake ==> s.openedAt.Some?
  {
  }

  lemma StillIdle(s: State, t: State)
    requires Interfered(s, t) && Idle(s) && s.running
    ensures Idle(t) && t.running && t.batchesRead == s.batchesRead && t.batches == s.batches
  {
  }

  lemma IdleIsSettled(s: State)
    requires Idle(s) && !s.running
    ensures Settled(s) && Settled(s.(closed := true)) && Settled(s.(closed := true, bound := false))
  {
  }

  lemma SettledIsIdle(s: State)
    requires !s.running && Settled(s)
    ensures Idle(s)
  {
  }

  lemma BatchReadMeans(s: State, t: State, b: nat, items: seq<RpcItem>, i: nat)
    requires i <= |items| && BatchRead(s, t, b, items, i)
    ensures Reading(t, b) && b in t.batches && t.running && !t.slack && !t.scheduling && t.building == Some(b)
    ensures Appended(s.output, t.output)
  {
  }

  lemma CompletedMeans(s: State, t: State, b: nat, activates: bool)
    requires b in s.batches && Completed(s, t, b, activates)
    ensures !t.running ==> t.closed
    ensures Appended(s.output, t.output)
  {
  }

  const INITIAL := State(closed := false, accepting := true, notified := false, bound := false, activated := false,
                         running := true, first := true, handshake := false,
                         batchesRead := 0, batches := map[], outstanding := {},
                         works := map[], spawned := 0, output := [],
                         requests := [], owners := map[], hand := None, scheduling := false,
                         building := None, slack := false, cutoff := None, openedAt := None)
}

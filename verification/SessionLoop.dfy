/** The select loop of one JSON-RPC session (backend/src/rpc/session.rs): scheduling calls,
    consuming their results in any order, assembling batches, opening, suspending and closing.

    Wherever the source awaits, `Interference` runs: any other task may close the transport, bind
    the identity or publish events in between. Event tasks hold the event gate from their check
    to their enqueue, so an event can appear only while the session is accepting and activated
    (module EventGate proves this for the gate protocol itself). */
module SessionLoop {
  import opened Json
  import opened Protocol
  import opened SessionState
  import opened SessionSteps
  import opened SessionBatches
  import opened SessionSpec

  /** The text of a batch frame; the bytes reserved beforehand are exactly its length. */
  method RenderBatch(replies: seq<Reply>) returns (text: string)
    ensures text == Render(replies)
    ensures |text| == ReservedBytes(replies)
  {
    text := "[";
    for index := 0 to |replies|
      invariant text == "[" + Commas(replies[..index])
    {
      CommasOfNext(replies, index);
      if index != 0 {
        text := text + ",";
      }
      text := text + replies[index].text;
    }
    text := text + "]";
    assert replies[..|replies|] == replies;
    RenderedLength(replies);
  }

  class Session {
    /** The method table: every registered name and its execution class. */
    const registry: map<string, ExecutionClass>

    /** The transport flags, the shared session state, the loop's own tables, the supervised work
        and the output queue, together with their history. The batch that the loop is working on
        stays in the table under the key `building`. */
    var state: State

    /** The invariant of the session. */
    ghost predicate Consistent()
      reads this
    {
      Valid(state)
    }

    constructor (registry: map<string, ExecutionClass>)
      ensures Consistent() && Idle(state) && state.running && !state.closed && state.output == [] && state.batchesRead == 0
    {
      this.registry := registry;
      state := INITIAL;
    }

    // -------------------------------------------------------------- interference

    method Close()
      requires Consistent()
      modifies this
      ensures Consistent()
      ensures state == old(state).(closed := true)
    {
      hide Valid;
      CloseKeepsValid(state);
      state := state.(closed := true);
    }

    /** Everything other tasks may do while the loop awaits: close the transport, bind the
        identity, and publish events if the session is accepting and activated. */
    method Interference()
      requires Consistent()
      modifies this
      ensures Consistent()
      ensures Interfered(old(state), state)
    {
      hide Valid, Interfered;
      NothingInterferes(state);
      var steps: nat := *;
      while steps > 0
        invariant Consistent()
        invariant Interfered(old(state), state)
      {
        var close: bool := *;
        var publish: bool := *;
        var bound: bool := *;
        CloseInterferes(old(state), state, bound);
        if close {
          Close();
        } else if publish && state.accepting && state.activated {
          PublishKeepsValid(state);
          PublishInterferes(old(state), state);
          state := Published(state);
        } else {
          BindKeepsValid(state, bound);
          state := state.(bound := bound);
        }
        steps := steps - 1;
      }
    }

    // -------------------------------------------------------------- suspension and notice

    /** Waits for the event gate, then stops admission: no event can follow. */
    method SuspendAuthorizedWork()
      requires Consistent()
      modifies this
      ensures Consistent()
      ensures SuspendedFrom(old(state), state)
    {
      hide Valid, Interfered, SuspendedFrom, Suspended;
      Interference();
      SuspendKeepsValid(state);
      SuspendAfterWait(old(state), state);
      state := Suspended(state);
    }

    /** Queues the notice; a failed send leaves the output as it is. */
    method SendNotice(failure: LifecycleFailure)
      requires Consistent()
      requires state.notified && !state.accepting && Noticeable(state.output, failure)
      modifies this
      ensures Consistent()
      ensures NoticeTried(old(state), state, failure)
    {
      hide Valid, Noticeable, Interfered, NoticeTried;
      Interference();
      NoticeIsTried(old(state), state, failure);
      var sent: bool := *;
      if sent && !state.closed {
        NoticeKeepsValid(state, failure);
        state := Noticed(state, failure);
      } else {
        Close();
      }
    }

    /** At most one notice is ever queued, it is the last frame, and the session closes. */
    method HandleLifecycleFailure(failure: LifecycleFailure)
      requires Consistent()
      requires !state.notified
      requires Quiet(state.output) || (!state.accepting && Noticeable(state.output, failure))
      modifies this
      ensures Consistent()
      ensures NotifiedFrom(old(state), state, failure)
    {
      hide Valid, Noticeable, Interfered, NotifiedFrom, Notifying, NoticeTried;
      Interference();
      NotifyKeepsValid(state);
      ghost var met := state;
      NoticeAfterWait(old(state), met, failure);
      state := Notifying(state);
      SendNotice(failure);
      NoticeSent(old(state), met, state, failure);
      Close();
    }

    /** Event tasks start only for an accepting session with a bound identity. */
    method Activate()
      requires Consistent()
      requires state.openedAt.Some?
      modifies this
      ensures Consistent()
      ensures SameTables(old(state), state)
      ensures state.activated == (old(state).activated || (state.accepting && state.bound))
    {
      hide Valid, Interfered, Quiet, Replies, SameTables;
      Interference();
      ActivationKeepsTables(old(state), state);
      if state.accepting && !state.activated && state.bound {
        ActivateKeepsValid(state);
        state := state.(activated := true);
      }
    }

    // -------------------------------------------------------------- sending

    /** Queues a prepared single reply. A failed send closes the transport. */
    method SendSingle(r: Reply) returns (ok: bool)
      requires Consistent()
      requires Sendable(state, r)
      requires state.hand.Some? ==> state.requests[state.hand.value].home == ToSingle
      modifies this
      ensures Consistent()
      ensures Appended(old(state.output), state.output)
      ensures ok ==> SingleQueued(old(state), state, r)
      ensures !ok ==> NothingQueued(old(state), state) && state.closed
    {
      hide Appended, Valid, Interfered, SingleQueued, NothingQueued;
      Interference();
      ok := *;
      if state.closed { ok := false; }
      QueueSingle(old(state), state, r);
      QueuedSingle(old(state), state, r);
      if ok {
        SendSingleKeepsValid(state, r);
        state := state.(output := state.output + [SingleFrame(r)],
                        requests := Moved(state.requests, state.hand, Sent(|state.output|, 0)), hand := None,
                        openedAt := if state.openedAt.None? && OpeningReply(SingleFrame(r)) then Some(|state.output|)
                                    else state.openedAt);
      } else {
        Close();
      }
    }

    // -------------------------------------------------------------- scheduling

    /** A rejection that carries no session-level consequence. */
    method Reject(id: RpcId, origin: Option<nat>) returns (prepared: Option<Reply>)
      ensures prepared.Some? ==> Rejection(prepared.value, id, origin)
    {
      var text: string := *;
      var reserved: bool := *;
      prepared := if reserved then Some(Reply(id, text, false, None, origin)) else None;
    }

    /** An error reply decided by the loop itself. A single call's id is free again; if the reply
        cannot be prepared the transport closes. */
    method AnswerAtOnce(id: Option<RpcId>, destination: Destination) returns (reply: Option<Reply>)
      requires Consistent()
      requires id.Some? <==> state.hand.Some?
      requires id.Some? && destination.ToSingle? ==> state.scheduling
      modifies this
      ensures Consistent()
      ensures Answered(old(state), state, id, destination, reply)
    {
      hide Valid;
      if id.None? { return None; }
      if destination.ToSingle? {
        ReleaseKeepsValid(state);
        state := state.(outstanding := state.outstanding - IdInHand(state), owners := state.owners - IdInHand(state),
                        scheduling := false);
      }
      reply := Reject(id.value, state.hand);
      if reply.None? {
        Close();
        LoseHandKeepsValid(state);
        state := LostHand(state);
      }
    }

    /** Registers the call, then spawns it under a permit, rejects it at once, or, when the session
        is closed or suspended, gives it up. */
    method ScheduleCall(call: Call, destination: Destination, closeAfterError: bool) returns (r: Scheduled)
      requires Consistent()
      requires Free(state, destination) && MayOpen(state, call, destination, closeAfterError)
      modifies this
      ensures Consistent()
      ensures Decided(old(state), state, call, destination, closeAfterError, r)
    {
      hide Valid, Free, MayOpen, Decided, Arrived;
      var id := call.id;
      if id.Some? && id.value in state.outstanding {
        var reply := Reject(NullId, None);
        DuplicateIsDecided(state, call, destination, closeAfterError, reply);
        return Duplicate(reply);
      }
      FreeHand(state, destination);
      ArriveKeepsValid(state, call, destination, closeAfterError);
      state := Arrived(state, call, destination);
      r := AdmitCall(old(state), call, destination, closeAfterError);
    }

    /** An arrived call gets a permit or is turned away. `before` is the state before it arrived. */
    method AdmitCall(ghost before: State, call: Call, destination: Destination, closeAfterError: bool)
      returns (r: Scheduled)
      requires Consistent()
      requires Arriving(before, state, call, destination, closeAfterError)
      modifies this
      ensures Consistent()
      ensures Decided(before, state, call, destination, closeAfterError, r)
    {
      hide Valid, Arriving, Interfered, Decided, Answered, LostHand;
      var classified := call.target.Class();
      var admitted: bool := *;
      if admitted || classified.None? {
        r := RunAdmitted(before, call, destination, closeAfterError);
      } else if classified.value.Read? || classified.value.Mutation? {
        ArrivedHand(before, state, call, destination, closeAfterError);
        var reply := AnswerAtOnce(call.id, destination);
        AnsweredIsDecided(before, old(state), old(state), state, call, destination, closeAfterError, reply);
        r := Immediate(reply);
      } else {
        Close();
        LoseHandKeepsValid(state);
        state := LostHand(state);
        LostIsDecided(before, old(state), state, call, destination, closeAfterError);
        r := Immediate(None);
      }
    }

    /** The call is handed to an executor, unless the session closed or was suspended meanwhile or
        the name of the call is not registered. */
    method RunAdmitted(ghost before: State, call: Call, destination: Destination, closeAfterError: bool)
      returns (r: Scheduled)
      requires Consistent()
      requires Arriving(before, state, call, destination, closeAfterError)
      modifies this
      ensures Consistent()
      ensures Decided(before, state, call, destination, closeAfterError, r)
    {
      hide Valid, Arriving, Framed, Interfered, Spawnable, Decided, Answered, DroppedHand, Spawned;
      ArrivedHand(before, state, call, destination, closeAfterError);
      Interference();
      ghost var met := state;
      InterferenceIsFramed(old(state), met);
      if !state.accepting || state.closed {
        LateCall(before, old(state), met, call, destination, closeAfterError);
        DropHandKeepsValid(state);
        state := DroppedHand(state);
        DroppedIsDecided(before, old(state), met, call, destination, closeAfterError);
        r := Immediate(None);
      } else if call.target.Class().None? {
        var reply := AnswerAtOnce(call.id, destination);
        AnsweredIsDecided(before, old(state), met, state, call, destination, closeAfterError, reply);
        r := Immediate(reply);
      } else {
        var work := WorkOf(call, state.hand, destination, closeAfterError);
        ArrivedIsSpawnable(before, old(state), met, call, destination, closeAfterError);
        SpawnKeepsValid(state, work);
        state := Spawned(state, work);
        SpawnedIsDecided(before, old(state), met, call, destination, closeAfterError);
        r := Pending;
      }
    }

    // -------------------------------------------------------------- results

    /** The loop leaves its select loop. */
    method Leave()
      requires Consistent()
      modifies this
      ensures Consistent()
      ensures state == old(state).(running := false)
    {
      state := state.(running := false);
    }

    /** What follows a queued answer: the notice of a lifecycle failure, which ends the session, or
        else activation, and the end if the answer asks for it. */
    method Finish(lifecycle: Option<LifecycleFailure>, activates: bool, closes: bool)
      requires Consistent()
      requires state.running && !state.notified
      requires lifecycle.None? ==> Quiet(state.output)
      requires lifecycle.Some? ==> !state.accepting && Noticeable(state.output, lifecycle.value)
      requires activates ==> state.openedAt.Some?
      modifies this
      ensures Consistent()
      ensures Finished(old(state), state, lifecycle, activates)
      ensures state.running <==> lifecycle.None? && !closes
    {
      hide Valid, Quiet, Replies, Noticeable, NotifiedFrom, Finished, SameTables;
      if lifecycle.Some? {
        HandleLifecycleFailure(lifecycle.value);
        FinishedByNotice(old(state), state, lifecycle.value, activates);
        Leave();
      } else {
        if activates {
          Activate();
        } else {
          NothingFinishes(state);
        }
        FinishedQuietly(old(state), state, activates);
        if closes {
          Close();
          Leave();
        }
      }
    }

    /** The reply to a single call is queued, and what it entails follows. A reply that carries a
        lifecycle failure is preceded by suspension. */
    method DeliverSingle(work: Work, r: Reply)
      requires Consistent()
      requires Deliverable(state, work, r)
      modifies this
      ensures Consistent()
      ensures SingleDelivered(old(state), state, r, work.activateAfterSuccess && r.success)
    {
      hide Valid, Quiet, Replies, EndsQuietly, Noticeable, SuspendedFrom, Deliverable, ReadyFrom, SingleQueued, NothingQueued, Finished,
           SingleDelivered;
      if r.lifecycle.Some? {
        SuspendAuthorizedWork();
      }
      ghost var ready := state;
      ReadyToDeliver(old(state), ready, work, r);
      var ok := SendSingle(r);
      if ok {
        ghost var queued := state;
        QueuedIsFinishable(old(state), ready, queued, work, r);
        Finish(r.lifecycle, work.activateAfterSuccess && r.success, work.closeAfterError && !r.success);
        DeliveryFinishes(old(state), ready, queued, state, r, work.activateAfterSuccess && r.success);
      } else {
        DeliveryStops(old(state), ready, state, r, work.activateAfterSuccess && r.success);
        Leave();
      }
    }

    /** The result of a single call: its id is free, and its reply, if it has one, is delivered. */
    method HandleSingleResult(w: nat, reply: Option<Reply>)
      requires Consistent()
      requires Idle(state) && state.running && w in state.works
      requires state.works[w].destination.ToSingle? && Answers(state.works[w], reply)
      modifies this
      ensures Consistent()
      ensures Idle(state)
      ensures w !in state.works && state.batchesRead == old(state.batchesRead)
      ensures Follows(old(state.output), state.output, ResultPlan(old(state), w, reply), !state.running)
      ensures state.running ==> ActivatedBy(old(state), state, ResultEnables(old(state), w, reply))
    {
      hide Valid, Quiet, EndsQuietly, Replies, Follows, OnlyEvents, Interfered;
      var work := state.works[w];
      TakeKeepsValid(state, w);
      TakenIsSendable(state, w, reply);
      state := Taken(state, w);
      if reply.Some? {
        DeliverSingle(work, reply.value);
        if !state.running { return; }
      } else {
        if work.activateAfterSuccess {
          Activate();
        }
        PlanIsEmpty(old(state.output), state.output, !state.running);
      }
      HandshakeEndKeepsValid(state);
      state := state.(handshake := false);
    }

    // -------------------------------------------------------------- batches

    /** Sends a completed batch as one frame and frees its ids; an empty one sends nothing. */
    method FlushBatch(b: nat) returns (done: Completion)
      requires Consistent()
      requires Flushable(state, b)
      modifies this
      ensures Consistent()
      ensures done.Done? ==>
                FlushedFrom(old(state), state, b) && done.lifecycle == old(state).batches[b].lifecycle
      ensures done.Failed? ==> Interfered(old(state), state)
    {
      hide Valid, Quiet, Interfered, FlushedFrom, Flushed;
      var assembly := state.batches[b];
      if assembly.replies == [] {
        NothingInterferes(state);
        FlushKeepsValid(state, b);
        FlushAfterWait(state, state, b);
        state := Flushed(state, b);
        return Done(assembly.lifecycle);
      }
      NothingInterferes(state);
      var reserved: bool := *;
      if !reserved || ReservedBytes(assembly.replies) > MAX_FRAME_BYTES {
        return Failed;
      }
      var text := RenderBatch(assembly.replies);
      Interference();
      var sent: bool := *;
      if state.closed || !sent {
        return Failed;
      }
      StillFlushable(old(state), state, b);
      FlushKeepsValid(state, b);
      FlushAfterWait(old(state), state, b);
      RenderedFrame(state, b, text);
      state := Flushed(state, b).(output := state.output + [BatchFrame(assembly, text)]);
      done := Done(assembly.lifecycle);
    }

    /** The batch of a counted call learns its outcome: it waits for one call fewer (there is
        always one to subtract) and gains the reply, if there is one. */
    method CollectResult(b: nat, work: Work, reply: Option<Reply>)
      requires Consistent()
      requires Collectable(state, b, work, reply)
      modifies this
      ensures Consistent()
      ensures state == Collected(old(state), b, work, reply)
    {
      hide Valid, Pushable, WithReply, Collected;
      WaitingForCall(state, b);
      CollectKeepsValid(state, b, work, reply);
      CollectedInSteps(state, b, work, reply);
      state := state.(batches := state.batches[b := Activating(state.batches[b], work, reply)]);
      state := Withdrawn(state, b);
      if reply.Some? {
        state := Pushed(state, b, reply.value, work.closeAfterError);
      }
    }

    /** A completed batch is flushed, and what its replies entail follows. */
    method CompleteBatch(b: nat, activates: bool, closes: bool)
      requires Consistent()
      requires Flushable(state, b) && state.running && state.openedAt.Some?
      modifies this
      ensures Consistent()
      ensures Completed(old(state), state, b, activates)
    {
      hide Valid, Quiet, Replies, Interfered, Flushable, Noticeable, FlushedFrom, Finished, Completed;
      FlushableBatch(state, b);
      BatchLifecycle(state, b);
      var done := FlushBatch(b);
      if done.Done? {
        ghost var flushed := state;
        FlushedMeans(old(state), flushed, b);
        Finish(done.lifecycle, activates, closes);
        BatchFinishes(old(state), flushed, state, b, activates);
      } else {
        FailedFlushStops(old(state), state, b, activates);
        Close();
        Leave();
      }
    }

    /** The outcome of a counted member reaches its batch, which is answered once it is complete. */
    method CountMember(b: nat, work: Work, reply: Option<Reply>)
      requires Consistent()
      requires b in state.batches && Countable(state, b, work, reply)
      modifies this
      ensures Consistent()
      ensures MemberCounted(old(state), state, b, work, reply)
    {
      hide Valid, Quiet, Replies, Countable, Collectable, Collected, MemberCounted, AfterResult, ReadyFrom, SuspendedFrom,
           Completed, Flushable;
      if LifecycleOf(reply).Some? {
        SuspendAuthorizedWork();
      }
      ghost var ready := state;
      ReadyToCollect(old(state), ready, b, work, reply);
      CollectResult(b, work, reply);
      if state.batches[b].pending > 0 {
        MemberWaits(old(state), ready, b, work, reply);
        EndKeepsValid(state, b);
        state := state.(building := None);
      } else {
        MemberCompletes(old(state), ready, b, work, reply);
        CompleteBatch(b, state.batches[b].activateAfterSuccess, state.batches[b].closeAfterError);
        MemberCompleted(old(state), ready, state, b, work, reply);
      }
    }

    /** The result of a batch member. */
    method HandleBatchResult(w: nat, reply: Option<Reply>)
      requires Consistent()
      requires Idle(state) && state.running && w in state.works
      requires state.works[w].destination.ToBatch? && Answers(state.works[w], reply)
      modifies this
      ensures Consistent()
      ensures Idle(state)
      ensures w !in state.works && state.batchesRead == old(state.batchesRead)
      ensures Follows(old(state.output), state.output, ResultPlan(old(state), w, reply), !state.running)
      ensures state.running ==> ActivatedBy(old(state), state, ResultEnables(old(state), w, reply))
    {
      hide Valid, Quiet, Replies, Follows, Countable, AfterResult, MemberPlan;
      var work := state.works[w];
      TakeKeepsValid(state, w);
      TakenIsCountable(state, w, reply);
      state := Taken(state, w);
      PlanIsEmpty(old(state.output), state.output, false);
      if work.counts {
        CountMember(work.destination.batch, work, reply);
        if !state.running { return; }
      }
      HandshakeEndKeepsValid(state);
      state := state.(handshake := false);
    }

    // -------------------------------------------------------------- reading

    /** A last reply is attempted; whether it is queued or not, the session ends. */
    method Refuse(reply: Option<Reply>)
      requires Consistent()
      requires state.hand.None? && !state.scheduling && Quiet(state.output) && !state.notified
      requires reply.Some? ==> reply.value.origin.None? && Unrefusing(reply.value)
      modifies this
      ensures Consistent()
      ensures !state.running && state.closed && Settled(state) && state.requests == old(state.requests)
      ensures Replies(state.output) == Replies(old(state.output)) ||
              (reply.Some? && Replies(state.output) == Replies(old(state.output)) + [SingleFrame(reply.value)])
      ensures Appended(old(state.output), state.output)
    {
      hide Appended, Valid, Quiet, Replies, EndsQuietly;
      NothingAppends(state.output);
      if reply.Some? {
        var ok := SendSingle(reply.value);
        if ok { QuietEnd(state.output, reply.value); }
      }
      Close();
      Leave();
    }

    /** An error reply to something that is not a request. If it cannot be prepared or queued, the
        session ends. */
    method Respond(reply: Option<Reply>)
      requires Consistent()
      requires Idle(state) && state.running && !state.handshake
      requires reply.Some? ==> Unaddressed(reply.value)
      modifies this
      ensures Consistent()
      ensures Idle(state) && (!state.running ==> state.closed)
      ensures state.running ==>
                && reply.Some? && Replies(state.output) == Replies(old(state.output)) + [SingleFrame(reply.value)]
                && state.first == old(state.first) && state.batchesRead == old(state.batchesRead)
                && Announced(old(state.requests), state.requests, [], ToSingle)
      ensures Appended(old(state.output), state.output)
    {
      hide Appended, Valid, Quiet, Replies, EndsQuietly;
      NothingAppends(state.output);
      if reply.Some? {
        var ok := SendSingle(reply.value);
        if ok {
          QuietEnd(state.output, reply.value);
        } else {
          Leave();
        }
      } else {
        Close();
        Leave();
      }
    }

    /** A single message after the first check: a response of the peer is ignored, an invalid item
        is answered, and a call is scheduled. */
    method ReadSingle(item: RpcItem)
      requires Consistent()
      requires Idle(state) && state.running && !state.first
      requires state.handshake ==> state.requests == [] && ValidOpen(Single(item))
      modifies this
      ensures Consistent()
      ensures Idle(state) && (!state.running ==> state.closed)
      ensures state.running ==>
                && !state.first && state.batchesRead == old(state.batchesRead)
                && Announced(old(state.requests), state.requests, IdsOfItem(item), ToSingle)
      ensures item.PeerResponse? ==> state == old(state)
      ensures Appended(old(state.output), state.output)
    {
      hide Appended, Valid, Quiet, Replies, EndsQuietly, Decided, SingleQueued, NothingQueued, Sendable;
      NothingAppends(state.output);
      match item {
        case PeerResponse =>
        case Invalid(_) =>
          var reply := Reject(NullId, None);
          Respond(reply);
        case Call(call) =>
          var opening := state.handshake;
          var scheduled := ScheduleCall(NewCall(call.id, MethodOf(registry, call.name)), ToSingle, opening);
          SingleScheduled(old(state), state, NewCall(call.id, MethodOf(registry, call.name)), opening, scheduled);
          match scheduled {
            case Pending =>
            case Duplicate(reply) => Refuse(reply);
            case Immediate(reply) =>
              if reply.Some? {
                ghost var held := state;
                AnswerSingle(reply.value);
                AppendedTwice(old(state.output), held.output, state.output);
                if state.running {
                  StillAnnounced(old(state.requests), held.requests, state.requests, IdsOfItem(item), ToSingle);
                }
              }
          }
      }
    }

    /** Queues the immediate answer to the call in hand. */
    method AnswerSingle(r: Reply)
      requires Consistent()
      requires state.running && !state.first && Idle(state.(hand := None))
      requires Sendable(state, r) && state.hand.Some? && state.requests[state.hand.value].home == ToSingle
      requires Unrefusing(r)
      modifies this
      ensures Consistent()
      ensures Idle(state) && (!state.running ==> state.closed)
      ensures state.running ==>
                !state.first && state.batchesRead == old(state.batchesRead) && SameRequests(old(state.requests), state.requests)
      ensures Appended(old(state.output), state.output)
    {
      hide Appended, Valid, Quiet, Replies, EndsQuietly, SingleQueued, NothingQueued, Sendable;
      var ok := SendSingle(r);
      if ok {
        AnsweredAtOnce(old(state), state, r);
      } else {
        NotSent(old(state), state);
        Leave();
      }
    }

    /** One item of the batch being built. */
    method ReadMember(b: nat, item: RpcItem)
      requires Consistent()
      requires Reading(state, b)
      modifies this
      ensures Consistent()
      ensures state.running ==> b in old(state.batches) && MemberRead(old(state), state, b, item)
      ensures !state.running ==> Settled(state) && state.closed
      ensures Appended(old(state.output), state.output)
    {
      hide Appended, Valid, Quiet, Replies, MemberRead, Reading;
      ReadingMeans(state, b);
      NothingAppends(state.output);
      match item {
        case PeerResponse => IgnoredMember(state, b);
        case Invalid(_) =>
          var reply := Reject(NullId, None);
          if reply.Some? {
            InvalidMember(state, b, reply.value, item);
            PushKeepsValid(state, b, reply.value, false);
            state := Pushed(state, b, reply.value, false);
          } else {
            Close();
            Leave();
          }
        case Call(call) => ScheduleMember(b, call);
      }
    }

    /** A call of the batch: it is waited for, answered at once, or given up; a duplicate id ends
        the session. */
    method ScheduleMember(b: nat, call: RpcCall)
      requires Consistent()
      requires Reading(state, b)
      modifies this
      ensures Consistent()
      ensures state.running ==> b in old(state.batches) && MemberRead(old(state), state, b, RpcItem.Call(call))
      ensures !state.running ==> Settled(state) && state.closed
      ensures Appended(old(state.output), state.output)
    {
      hide Appended, Valid, Quiet, Replies, MemberRead, Reading, Decided, MemberDecided, MayOpen, Free, WithReply, Rejection;
      ReadingMeans(state, b);
      var target := MethodOf(registry, call.name);
      ArrivedMember(state, b, NewCall(call.id, target));
      MayAlwaysSchedule(state, NewCall(call.id, target), ToBatch(b));
      var scheduled := ScheduleCall(NewCall(call.id, target), ToBatch(b), false);
      if scheduled.Duplicate? {
        DuplicateEnds(old(state), state, NewCall(call.id, target), ToBatch(b), scheduled);
        Refuse(scheduled.reply);
      } else {
        MemberIsDecided(old(state), state, b, NewCall(call.id, target), scheduled);
        DecidedAppends(old(state), state, b, NewCall(call.id, target));
        StillRunning(old(state), state, b, NewCall(call.id, target));
        if scheduled.Immediate? && (call.id.Some? || target.Activates()) {
          SettleMember(old(state), b, call, target, scheduled.reply);
        } else {
          PendingMember(old(state), state, b, call, target);
        }
      }
    }

    /** The batch no longer waits for a call that was decided at once, and gains its answer if there
        is one. `before` is the state before the call was scheduled. */
    method SettleMember(ghost before: State, b: nat, call: RpcCall, target: Method, reply: Option<Reply>)
      requires Consistent()
      requires Reading(before, b) && MemberDecided(before, state, b, NewCall(call.id, target))
      requires state.slack && state.running && !state.scheduling && (call.id.Some? || target.Activates())
      requires reply.None? ==> state.hand.None?
      requires reply.Some? ==>
                 && call.id.Some? && state.hand == Some(|before.requests|) && Rejection(reply.value, call.id.value, state.hand)
                 && |state.requests| == |before.requests| + 1
                 && state.requests[|before.requests|].id == call.id.value && state.requests[|before.requests|].home == ToBatch(b)
      modifies this
      ensures Consistent()
      ensures MemberRead(before, state, b, RpcItem.Call(call)) && state.running
      ensures state.output == old(state.output)
    {
      hide Valid, Quiet, Replies, MemberRead, Reading, MemberDecided, WithReply, Rejection;
      RequestInHand(state);
      if reply.Some? {
        AnsweredMember(before, state, b, call, target, reply.value);
        WithdrawKeepsValid(state, b);
        PushKeepsValid(Withdrawn(state, b), b, reply.value, false);
        state := Withdrawn(state, b);
        state := Pushed(state, b, reply.value, false);
      } else {
        WithdrawnMember(before, state, b, call, target);
        WithdrawKeepsValid(state, b);
        state := Withdrawn(state, b);
      }
    }

    /** A batch: its items in order, then its frame if nothing is left to wait for. */
    method ReadBatch(items: seq<RpcItem>)
      requires Consistent()
      requires Idle(state) && state.running && !state.first && !state.handshake
      requires state.batchesRead < TWO_TO_THE_64
      modifies this
      ensures Consistent()
      ensures Idle(state) && (!state.running ==> state.closed)
      ensures state.running ==> BatchHandled(old(state), state, items)
      ensures Appended(old(state.output), state.output)
    {
      hide Appended, Valid, Quiet, Replies, BatchRead, MemberRead, BatchHandled, Completed, Flushable, Idle, Settled;
      IdleMeans(state);
      NextBatchIsFresh(state);
      var b := state.batchesRead;
      BatchBegins(state, items);
      BeginKeepsValid(state);
      state := Begun(state);
      for i := 0 to |items|
        invariant Consistent()
        invariant BatchRead(old(state), state, b, items, i)
      {
        ghost var before := state;
        BatchReadMeans(old(state), state, b, items, i);
        ReadMember(b, items[i]);
        if !state.running {
          BatchReadMeans(old(state), before, b, items, i);
          AppendedTwice(old(state.output), before.output, state.output);
          SettledIsIdle(state);
          return;
        }
        BatchGoesOn(old(state), before, state, b, items, i);
      }
      BatchReadMeans(old(state), state, b, items, |items|);
      if state.batches[b].pending == 0 {
        ghost var full := state;
        BatchCompletes(old(state), state, b, items);
        CompleteBatch(b, false, false);
        BatchAnswered(old(state), full, state, b, items);
        CompletedMeans(full, state, b, false);
        AppendedTwice(old(state.output), full.output, state.output);
      } else {
        BatchWaits(old(state), state, b, items);
        EndKeepsValid(state, b);
        state := state.(building := None);
      }
    }

    /** A well-formed message. The first one must be a valid `session.open`. */
    method ReadMessage(message: RpcMessage)
      requires Consistent()
      requires Idle(state) && state.running && !state.handshake && state.batchesRead < TWO_TO_THE_64
      modifies this
      ensures Consistent()
      ensures Idle(state) && (!state.running ==> state.closed)
      ensures old(state).first && !ValidOpen(message) ==> !state.running && state.requests == []
      ensures state.running ==>
                && !state.first && state.batchesRead <= old(state.batchesRead) + 1
                && Announced(old(state.requests), state.requests, IdsOfMessage(message),
                             if message.Single? then ToSingle else ToBatch(old(state.batchesRead)))
      ensures state.running && message.Batch? ==> BatchHandled(old(state), state, message.items)
      ensures Appended(old(state.output), state.output)
    {
      hide Appended, Valid, Quiet, Replies, Settled, BatchHandled;
      NothingAppends(state.output);
      if state.first {
        FirstMessageKeepsValid(state);
        state := state.(first := false);
        if !ValidOpen(message) {
          var reply := Reject(NullId, None);
          Refuse(reply);
          return;
        }
        state := state.(handshake := true);
      }
      match message {
        case Single(item) => ReadSingle(item);
        case Batch(items) =>
          ReadBatch(items);
          if state.running { BatchIsAnnounced(old(state), state, items); }
      }
    }

    /** One message from the input queue. */
    method ReadInput(incoming: Incoming)
      requires Consistent()
      requires Idle(state) && state.running && !state.handshake && state.batchesRead < TWO_TO_THE_64
      modifies this
      ensures Consistent()
      ensures Idle(state) && (!state.running ==> state.closed)
      ensures state.running ==> state.batchesRead <= old(state.batchesRead) + 1
      ensures state.running ==> incoming.Text?
      ensures state.running && incoming.parsed.Rejected? ==>
                && (exists r :: Unaddressed(r) && Replies(state.output) == Replies(old(state.output)) + [SingleFrame(r)])
                && state.first == old(state.first)
      ensures state.running ==>
                Announced(old(state.requests), state.requests,
                          if incoming.parsed.Message? then IdsOfMessage(incoming.parsed.message) else [],
                          if incoming.parsed.Message? && incoming.parsed.message.Batch?
                          then ToBatch(old(state.batchesRead)) else ToSingle)
      ensures Appended(old(state.output), state.output)
    {
      hide Appended, Valid, Quiet, Replies, Settled, BatchHandled;
      match incoming {
        case Oversized(id) =>
          IdleMeans(state);
          var reply: Option<Reply> := None;
          if id.Some? { reply := Reject(id.value, None); }
          Refuse(reply);
        case Text(Rejected(_)) =>
          var reply := Reject(NullId, None);
          Respond(reply);
        case Text(Message(message)) => ReadMessage(message);
      }
    }

    // -------------------------------------------------------------- the loop

    /** The session is suspended and told; the loop ends. */
    method HandleGuardFailure(failure: LifecycleFailure)
      requires Consistent()
      requires Idle(state) && state.running
      modifies this
      ensures Consistent()
      ensures Idle(state) && !state.running && state.closed && !state.accepting && state.notified
      ensures state.batchesRead == old(state.batchesRead)
      ensures Follows(old(state.output), state.output, [NoticeFrame(failure)], true)
      ensures Appended(old(state.output), state.output)
    {
      hide Appended, Valid, Quiet, Replies, Noticeable, Follows;
      HandleLifecycleFailure(failure);
      PlanAppends(old(state.output), state.output, [NoticeFrame(failure)], true);
      Leave();
    }

    /** The loop is left between two events. */
    method Break()
      requires Consistent()
      requires Idle(state) && state.running
      modifies this
      ensures Consistent()
      ensures Idle(state) && state == old(state).(running := false)
    {
      hide Valid, Quiet;
      Leave();
    }

    /** The result of a supervised call. */
    method ConsumeResult(w: nat, reply: Option<Reply>)
      requires Consistent()
      requires Idle(state) && state.running && w in state.works && Answers(state.works[w], reply)
      modifies this
      ensures Consistent()
      ensures Idle(state) && w !in state.works && state.batchesRead == old(state.batchesRead)
      ensures Follows(old(state.output), state.output, ResultPlan(old(state), w, reply), !state.running)
      ensures Appended(old(state.output), state.output)
      ensures state.running ==> ActivatedBy(old(state), state, ResultEnables(old(state), w, reply))
    {
      hide Appended, Valid, Quiet, Replies, Idle, Follows, ResultPlan;
      if state.works[w].destination.ToSingle? {
        HandleSingleResult(w, reply);
      } else {
        HandleBatchResult(w, reply);
      }
      PlanAppends(old(state.output), state.output, ResultPlan(old(state), w, reply), !state.running);
    }

    /** The anonymous session has expired. */
    method Expire()
      requires Consistent()
      requires Idle(state) && state.running
      modifies this
      ensures Consistent()
      ensures Idle(state) && !state.running && state.closed && state.output == old(state.output)
      ensures Appended(old(state.output), state.output)
    {
      hide Appended, Valid, Quiet, Idle, Interfered;
      NothingInterferes(state);
      NothingAppends(state.output);
      CloseInterferes(state, state, state.bound);
      StillIdle(state, state.(closed := true));
      Close();
      Break();
    }

    /** The next message, or the end of the input, which ends the session. */
    method Receive(incoming: Option<Incoming>)
      requires Consistent()
      requires Idle(state) && state.running && !state.handshake && state.batchesRead < TWO_TO_THE_64
      modifies this
      ensures Consistent()
      ensures Idle(state) && (state.running ==> state.batchesRead <= old(state.batchesRead) + 1)
      ensures Appended(old(state.output), state.output)
    {
      hide Appended, Valid, Quiet, Replies, Idle, Announced;
      NothingAppends(state.output);
      if incoming.Some? {
        ReadInput(incoming.value);
      } else {
        Break();
      }
    }

    /** One event of the select loop: a guard failure, an expiry, a result, a message, or the end of
        the input. */
    method TakeEvent()
      requires Consistent()
      requires Idle(state) && state.running && state.batchesRead < TWO_TO_THE_64
      modifies this
      ensures Consistent()
      ensures Idle(state) && (state.running ==> state.batchesRead <= old(state.batchesRead) + 1)
      ensures Appended(old(state.output), state.output)
    {
      hide Appended, Valid, Quiet, Replies, Settled, Idle, Follows, Announced, ResultPlan;
      var failure: Option<LifecycleFailure> := *;
      var expired: bool := *;
      var w: nat := *;
      var reply: Option<Reply> := *;
      var incoming: Option<Incoming> := *;
      NothingAppends(state.output);
      if failure.Some? {
        HandleGuardFailure(failure.value);
      } else if expired {
        Expire();
      } else if w in state.works && Answers(state.works[w], reply) {
        ConsumeResult(w, reply);
      } else if !state.handshake {
        Receive(incoming);
      }
    }

    /** One round of the select loop: other tasks run while it waits, then one event is taken. */
    method Turn()
      requires Consistent()
      requires Idle(state) && state.running && state.batchesRead < TWO_TO_THE_64
      modifies this
      ensures Consistent()
      ensures Idle(state) && (state.running ==> state.batchesRead <= old(state.batchesRead) + 1)
      ensures Appended(old(state.output), state.output)
    {
      hide Appended, Valid, Quiet, Idle, Interfered;
      Interference();
      StillIdle(old(state), state);
      ghost var met := state;
      InterferenceAppends(old(state), met);
      if state.closed {
        Break();
      } else {
        TakeEvent();
        AppendedTwice(old(state.output), met.output, state.output);
      }
    }

    /** A whole session: up to `turns` events in any order, then the transport is closed and the
        identity is unbound. */
    method Serve(turns: nat)
      requires Consistent()
      requires turns < TWO_TO_THE_64 && Idle(state) && state.running && state.batchesRead == 0
      modifies this
      ensures Consistent()
      ensures Settled(state) && !state.running && state.closed && !state.bound
      ensures Appended(old(state.output), state.output)
    {
      hide Appended, Valid, Quiet, Settled, Idle;
      NothingAppends(state.output);
      for turn := 0 to turns
        invariant Consistent() && Idle(state)
        invariant Appended(old(state.output), state.output)
        invariant state.running ==> state.batchesRead <= turn
      {
        if !state.running { break; }
        ghost var before := state.output;
        Turn();
        AppendedTwice(old(state.output), before, state.output);
      }
      if state.running { Break(); }
      IdleIsSettled(state);
      Close();
      BindKeepsValid(state, false);
      state := state.(bound := false);
    }
  }
}

/** The elementary changes of a session's state and the proof that each keeps the invariant. */
module SessionSteps {
  import opened Json
  import opened Protocol
  import opened SessionState

  // ---------------------------------------------------------------- environment

  lemma CloseKeepsValid(s: State)
    requires Valid(s)
    ensures Valid(s.(closed := true))
  {
  }

  lemma HasReplyOfAppend(output: seq<Frame>, f: Frame, k: int, j: int)
    ensures HasReply(output, k, j) ==> HasReply(output + [f], k, j) && ReplyAt(output + [f], k, j) == ReplyAt(output, k, j)
    ensures HasReply(output + [f], k, j) ==>
              HasReply(output, k, j) || (k == |output| && !f.EventFrame? && !f.NoticeFrame?)
  {
  }

  /** Queueing a frame that carries no reply leaves the whole bookkeeping as it is. */
  lemma AppendKeepsBookkeeping(s: State, f: Frame)
    requires Valid(s)
    requires f.EventFrame? || f.NoticeFrame?
    ensures RequestsValid(s.requests, s.hand, s.works, s.batches, s.output + [f], s.closed, s.cutoff)
    ensures SentValid(s.output + [f], s.requests)
    ensures BatchFramesValid(s.output + [f], s.requests, s.cutoff)
  {
    forall o | 0 <= o < |s.requests|
      ensures RequestValid(o, s.requests[o], s.hand, s.works, s.batches, s.output + [f], s.closed, s.cutoff)
    {
      assert RequestValid(o, s.requests[o], s.hand, s.works, s.batches, s.output, s.closed, s.cutoff);
      if s.requests[o].fate.Sent? {
        HasReplyOfAppend(s.output, f, s.requests[o].fate.frame, s.requests[o].fate.slot);
      }
    }
    assert SentValid(s.output + [f], s.requests) by {
      forall k, j | HasReply(s.output + [f], k, j) ensures HasReply(s.output, k, j) &&
        ReplyAt(s.output + [f], k, j) == ReplyAt(s.output, k, j)
      {
        HasReplyOfAppend(s.output, f, k, j);
      }
    }
  }

  function Published(s: State): State { s.(output := s.output + [EventFrame]) }

  lemma PublishKeepsValid(s: State)
    requires Valid(s)
    requires s.accepting && s.activated
    ensures Valid(Published(s))
  {
    AppendKeepsBookkeeping(s, EventFrame);
  }

  lemma BindKeepsValid(s: State, bound: bool)
    requires Valid(s)
    ensures Valid(s.(bound := bound))
  {
  }

  /** Events may start only once the opening reply is queued. */
  lemma ActivateKeepsValid(s: State)
    requires Valid(s) && s.openedAt.Some?
    ensures Valid(s.(activated := true))
  {
  }

  // ---------------------------------------------------------------- accepting a request

  /** A single call with an id: the id becomes outstanding and the loop holds the request. */
  function AnnouncedSingle(s: State, id: RpcId): State
  {
    s.(outstanding := s.outstanding + {id},
       requests := s.requests + [Request(id, ToSingle, InHand)],
       owners := s.owners[id := OwnedByLoop],
       hand := Some(|s.requests|), scheduling := true)
  }

  /** A counted call becomes a member of batch `a`, which then waits for it. */
  function Joined(a: Assembly, id: Option<RpcId>): Assembly
  {
    a.(requestIds := if id.Some? then a.requestIds + [id.value] else a.requestIds, pending := a.pending + 1)
  }

  /** A call with an id that is a member of the batch being built. */
  function AnnouncedMember(s: State, b: nat, id: RpcId): State
    requires b in s.batches
  {
    s.(batches := s.batches[b := Joined(s.batches[b], Some(id))], slack := true,
       outstanding := s.outstanding + {id},
       requests := s.requests + [Request(id, ToBatch(b), InHand)],
       owners := s.owners[id := OwnedByBatch(b, |s.batches[b].requestIds|)],
       hand := Some(|s.requests|))
  }

  /** A counted notification (one that may activate the session) makes its batch wait as well. */
  function AnnouncedNotification(s: State, b: nat): State
    requires b in s.batches
  {
    s.(batches := s.batches[b := Joined(s.batches[b], None)], slack := true)
  }

  // ---------------------------------------------------------------- how request records evolve

  predicate Unsettled(f: Fate) { f.InHand? || f.InFlight? }

  /** Records keep their id and home, and only an unsettled request moves; it is not sent yet. */
  ghost predicate Evolves(before: seq<Request>, after: seq<Request>)
  {
    && |before| <= |after|
    && forall o :: 0 <= o < |before| ==>
         && after[o].id == before[o].id && after[o].home == before[o].home
         && (after[o].fate == before[o].fate || (Unsettled(before[o].fate) && !after[o].fate.Sent?))
  }

  lemma BatchesEvolve(batches: map<nat, Assembly>, batchesRead: nat, before: seq<Request>, after: seq<Request>, accepting: bool)
    requires BatchesValid(batches, batchesRead, before, accepting)
    requires Evolves(before, after)
    ensures BatchesValid(batches, batchesRead, after, accepting)
  {
  }

  lemma SentEvolves(output: seq<Frame>, before: seq<Request>, after: seq<Request>)
    requires SentValid(output, before)
    requires Evolves(before, after)
    ensures SentValid(output, after)
  {
  }

  lemma BatchFramesEvolve(output: seq<Frame>, before: seq<Request>, after: seq<Request>, cutoff: Option<nat>)
    requires BatchFramesValid(output, before, cutoff)
    requires Evolves(before, after)
    ensures BatchFramesValid(output, after, cutoff)
  {
  }

  lemma RecordsEvolve(s: State, after: seq<Request>)
    requires Valid(s) && Evolves(s.requests, after)
    ensures BatchesValid(s.batches, s.batchesRead, after, s.accepting)
    ensures SentValid(s.output, after)
    ensures BatchFramesValid(s.output, after, s.cutoff)
  {
    BatchesEvolve(s.batches, s.batchesRead, s.requests, after, s.accepting);
    SentEvolves(s.output, s.requests, after);
    BatchFramesEvolve(s.output, s.requests, after, s.cutoff);
  }

  lemma WorksArrive(works: map<nat, Work>, spawned: nat, requests: seq<Request>, q: Request, batches: map<nat, Assembly>)
    requires WorksValid(works, spawned, requests, batches)
    ensures WorksValid(works, spawned, requests + [q], batches)
  {
  }

  lemma RequestsArrive(requests: seq<Request>, q: Request, works: map<nat, Work>, batches: map<nat, Assembly>,
                       output: seq<Frame>, closed: bool, cutoff: Option<nat>)
    requires RequestsValid(requests, None, works, batches, output, closed, cutoff)
    requires q.fate == InHand
    ensures RequestsValid(requests + [q], Some(|requests|), works, batches, output, closed, cutoff)
  {
  }

  lemma OwnersHold(outstanding: set<RpcId>, owners: map<RpcId, Owner>, works: map<nat, Work>, batches: map<nat, Assembly>, id: RpcId)
    requires OwnersValid(outstanding, owners, None, works, batches)
    requires id !in outstanding
    ensures OwnersValid(outstanding + {id}, owners[id := OwnedByLoop], Some(id), works, batches)
  {
  }

  lemma ArrivalKeepsRequests(s: State, q: Request)
    requires Valid(s) && s.hand.None? && q.fate == InHand
    ensures WorksValid(s.works, s.spawned, s.requests + [q], s.batches)
    ensures RequestsValid(s.requests + [q], Some(|s.requests|), s.works, s.batches, s.output, s.closed, s.cutoff)
  {
    WorksArrive(s.works, s.spawned, s.requests, q, s.batches);
    RequestsArrive(s.requests, q, s.works, s.batches, s.output, s.closed, s.cutoff);
  }

  lemma AnnounceSingleKeepsOwners(s: State, id: RpcId)
    requires Valid(s) && !s.scheduling && id !in s.outstanding
    ensures var t := AnnouncedSingle(s, id);
            t.accepting && !t.closed ==> OwnersValid(t.outstanding, t.owners, Held(t), t.works, t.batches)
  {
    if s.accepting && !s.closed { OwnersHold(s.outstanding, s.owners, s.works, s.batches, id); }
  }

  lemma AnnounceSingleKeepsValid(s: State, id: RpcId)
    requires Valid(s) && s.hand.None? && !s.scheduling && !s.first
    requires id !in s.outstanding
    requires s.openedAt.None? ==> s.requests == []
    ensures Valid(AnnouncedSingle(s, id))
  {
    var q := Request(id, ToSingle, InHand);
    ArrivalKeepsRequests(s, q);
    RecordsEvolve(s, s.requests + [q]);
    AnnounceSingleKeepsOwners(s, id);
  }

  /** Batch `b` gains a call; `members` says the call is the newest request if it has an id. */
  lemma WorksJoin(works: map<nat, Work>, spawned: nat, requests: seq<Request>, batches: map<nat, Assembly>,
                  b: nat, id: Option<RpcId>)
    requires WorksValid(works, spawned, requests, batches) && b in batches
    ensures WorksValid(works, spawned, requests, batches[b := Joined(batches[b], id)])
  {
  }

  lemma RequestsJoin(requests: seq<Request>, hand: Option<nat>, works: map<nat, Work>, batches: map<nat, Assembly>,
                     output: seq<Frame>, closed: bool, cutoff: Option<nat>, b: nat, id: Option<RpcId>)
    requires RequestsValid(requests, hand, works, batches, output, closed, cutoff) && b in batches
    ensures RequestsValid(requests, hand, works, batches[b := Joined(batches[b], id)], output, closed, cutoff)
  {
  }

  lemma AssemblyJoins(a: Assembly, batchesRead: nat, requests: seq<Request>, accepting: bool, b: nat, id: Option<RpcId>)
    requires MembersValid(b, a, batchesRead, requests) && RepliesValid(b, a, requests, accepting)
    requires var n := a.base + |a.requestIds|;
             id.Some? ==> n < |requests| && requests[n] == Request(id.value, ToBatch(b), InHand)
    ensures MembersValid(b, Joined(a, id), batchesRead, requests)
    ensures RepliesValid(b, Joined(a, id), requests, accepting)
  {
    hide Unowed, First;
  }

  lemma BatchesJoin(batches: map<nat, Assembly>, batchesRead: nat, requests: seq<Request>, accepting: bool,
                    b: nat, id: Option<RpcId>)
    requires BatchesValid(batches, batchesRead, requests, accepting) && b in batches
    requires var n := batches[b].base + |batches[b].requestIds|;
             id.Some? ==> n < |requests| && requests[n] == Request(id.value, ToBatch(b), InHand)
    ensures BatchesValid(batches[b := Joined(batches[b], id)], batchesRead, requests, accepting)
  {
    hide MembersValid, RepliesValid;
    AssemblyJoins(batches[b], batchesRead, requests, accepting, b, id);
  }

  lemma OwnersJoin(outstanding: set<RpcId>, owners: map<RpcId, Owner>, works: map<nat, Work>, batches: map<nat, Assembly>,
                   b: nat, id: Option<RpcId>)
    requires OwnersValid(outstanding, owners, None, works, batches) && b in batches
    requires id.Some? ==> id.value !in outstanding
    ensures var after := batches[b := Joined(batches[b], id)];
            if id.None? then OwnersValid(outstanding, owners, None, works, after)
            else OwnersValid(outstanding + {id.value}, owners[id.value := OwnedByBatch(b, |batches[b].requestIds|)],
                             None, works, after)
  {
    var after := batches[b := Joined(batches[b], id)];
    var owners' := if id.None? then owners else owners[id.value := OwnedByBatch(b, |batches[b].requestIds|)];
    forall i | i in owners' ensures OwnerValid(i, owners'[i], None, works, after) {
      if id != Some(i) { assert OwnerValid(i, owners[i], None, works, batches); }
    }
  }

  lemma CountsJoin(batches: map<nat, Assembly>, works: map<nat, Work>, b: nat, id: Option<RpcId>)
    requires CountsValid(batches, works, Some(b), false)
    ensures CountsValid(batches[b := Joined(batches[b], id)], works, Some(b), true)
  {
  }

  lemma AnnounceMemberKeepsBatches(s: State, b: nat, id: RpcId)
    requires Valid(s) && s.hand.None? && b in s.batches
    requires s.batches[b].base + |s.batches[b].requestIds| == |s.requests|
    ensures var t := AnnouncedMember(s, b, id);
            && BatchesValid(t.batches, t.batchesRead, t.requests, t.accepting)
            && SentValid(t.output, t.requests)
            && BatchFramesValid(t.output, t.requests, t.cutoff)
  {
    var requests := s.requests + [Request(id, ToBatch(b), InHand)];
    RecordsEvolve(s, requests);
    BatchesJoin(s.batches, s.batchesRead, requests, s.accepting, b, Some(id));
  }

  lemma AnnounceMemberKeepsRequests(s: State, b: nat, id: RpcId)
    requires Valid(s) && s.hand.None? && b in s.batches
    ensures var t := AnnouncedMember(s, b, id);
            && WorksValid(t.works, t.spawned, t.requests, t.batches)
            && RequestsValid(t.requests, t.hand, t.works, t.batches, t.output, t.closed, t.cutoff)
  {
    var q := Request(id, ToBatch(b), InHand);
    ArrivalKeepsRequests(s, q);
    WorksJoin(s.works, s.spawned, s.requests + [q], s.batches, b, Some(id));
    RequestsJoin(s.requests + [q], Some(|s.requests|), s.works, s.batches, s.output, s.closed, s.cutoff, b, Some(id));
  }

  lemma AnnounceMemberKeepsValid(s: State, b: nat, id: RpcId)
    requires Valid(s) && s.hand.None? && !s.scheduling && !s.slack
    requires s.building == Some(b) && b in s.batches
    requires s.batches[b].base + |s.batches[b].requestIds| == |s.requests|
    requires id !in s.outstanding
    ensures Valid(AnnouncedMember(s, b, id))
  {
    AnnounceMemberKeepsRequests(s, b, id);
    AnnounceMemberKeepsBatches(s, b, id);
    CountsJoin(s.batches, s.works, b, Some(id));
    if s.accepting && !s.closed { OwnersJoin(s.outstanding, s.owners, s.works, s.batches, b, Some(id)); }
  }

  lemma AnnounceNotificationKeepsRecords(s: State, b: nat)
    requires Valid(s) && b in s.batches
    ensures var t := AnnouncedNotification(s, b);
            && WorksValid(t.works, t.spawned, t.requests, t.batches)
            && RequestsValid(t.requests, t.hand, t.works, t.batches, t.output, t.closed, t.cutoff)
            && BatchesValid(t.batches, t.batchesRead, t.requests, t.accepting)
  {
    WorksJoin(s.works, s.spawned, s.requests, s.batches, b, None);
    RequestsJoin(s.requests, s.hand, s.works, s.batches, s.output, s.closed, s.cutoff, b, None);
    BatchesJoin(s.batches, s.batchesRead, s.requests, s.accepting, b, None);
  }

  lemma AnnounceNotificationKeepsValid(s: State, b: nat)
    requires Valid(s) && s.hand.None? && !s.scheduling && !s.slack
    requires s.building == Some(b) && b in s.batches
    ensures Valid(AnnouncedNotification(s, b))
  {
    AnnounceNotificationKeepsRecords(s, b);
    CountsJoin(s.batches, s.works, b, None);
    if s.accepting && !s.closed { OwnersJoin(s.outstanding, s.owners, s.works, s.batches, b, None); }
  }

  // ---------------------------------------------------------------- spawning

  /** Request `o` has been moved to a new place. */
  function Moved(requests: seq<Request>, o: Option<nat>, fate: Fate): (r: seq<Request>)
  {
    if o.Some? && o.value < |requests| then requests[o.value := requests[o.value].(fate := fate)] else requests
  }

  function Spawned(s: State, k: Work): State
  {
    s.(works := s.works[s.spawned := k], spawned := s.spawned + 1,
       hand := None, scheduling := false, slack := false,
       requests := Moved(s.requests, k.origin, InFlight(s.spawned)),
       owners := if k.destination.ToSingle? && k.id.Some? then s.owners[k.id.value := OwnedBySingle(s.spawned)]
                 else s.owners)
  }

  /** What the loop hands to the executor: the request in hand, or a notification. */
  ghost predicate Spawnable(s: State, k: Work)
  {
    && !s.first
    && k.origin == s.hand
    && (k.origin.Some? <==> k.id.Some?)
    && (k.counts <==> k.id.Some? || k.activateAfterSuccess)
    && (s.hand.Some? ==> s.hand.value < |s.requests| &&
                         s.requests[s.hand.value] == Request(k.id.value, k.destination, InHand))
    && (k.destination.ToSingle? ==> s.building.None? && !s.slack && (s.scheduling <==> k.id.Some?))
    && (k.destination.ToBatch? ==>
          && s.building == Some(k.destination.batch) && k.destination.batch in s.batches
          && !s.scheduling && (s.slack <==> k.counts)
          && (k.id.Some? ==> InRange(s.batches[k.destination.batch], k.origin.value)))
    && (s.openedAt.None? ==> s.spawned == 0 && Opening(k))
  }

  lemma CountedOfSpawn(works: map<nat, Work>, w: nat, k: Work, b: nat)
    requires w !in works
    ensures |Counted(works[w := k], b)| ==
              |Counted(works, b)| + if k.counts && k.destination == ToBatch(b) then 1 else 0
  {
    if k.counts && k.destination == ToBatch(b) {
      assert Counted(works[w := k], b) == Counted(works, b) + {w};
    } else {
      assert Counted(works[w := k], b) == Counted(works, b);
    }
  }

  lemma NextWorkIsFresh(s: State)
    requires Valid(s)
    ensures s.spawned !in s.works
  {
  }

  lemma SpawnKeepsRequests(s: State, k: Work)
    requires Valid(s) && Spawnable(s, k)
    ensures var t := Spawned(s, k);
            && WorksValid(t.works, t.spawned, t.requests, t.batches)
            && RequestsValid(t.requests, t.hand, t.works, t.batches, t.output, t.closed, t.cutoff)
  {
    var t := Spawned(s, k);
    NextWorkIsFresh(s);
    forall w | w in t.works ensures WorkValid(w, t.works[w], t.spawned, t.requests, t.batches) {
      if w != s.spawned { assert WorkValid(w, s.works[w], s.spawned, s.requests, s.batches); }
    }
    forall o | 0 <= o < |t.requests|
      ensures RequestValid(o, t.requests[o], t.hand, t.works, t.batches, t.output, t.closed, t.cutoff)
    {
      assert RequestValid(o, s.requests[o], s.hand, s.works, s.batches, s.output, s.closed, s.cutoff);
    }
  }

  lemma OwnersSpawn(outstanding: set<RpcId>, owners: map<RpcId, Owner>, held: Option<RpcId>,
                    works: map<nat, Work>, batches: map<nat, Assembly>, w: nat, k: Work)
    requires OwnersValid(outstanding, owners, held, works, batches)
    requires w !in works
    requires if k.destination.ToSingle? then held == k.id else held.None?
    ensures OwnersValid(outstanding,
                        if k.destination.ToSingle? && k.id.Some? then owners[k.id.value := OwnedBySingle(w)] else owners,
                        None, works[w := k], batches)
  {
  }

  lemma SpawnKeepsOwners(s: State, k: Work)
    requires Valid(s) && Spawnable(s, k)
    ensures var t := Spawned(s, k);
            t.accepting && !t.closed ==> OwnersValid(t.outstanding, t.owners, None, t.works, t.batches)
  {
    NextWorkIsFresh(s);
    if s.accepting && !s.closed {
      OwnersSpawn(s.outstanding, s.owners, Held(s), s.works, s.batches, s.spawned, k);
    }
  }

  lemma CountsSpawn(batches: map<nat, Assembly>, works: map<nat, Work>, building: Option<nat>, slack: bool, w: nat, k: Work)
    requires CountsValid(batches, works, building, slack) && w !in works
    requires slack <==> (k.destination.ToBatch? && k.counts)
    requires k.destination.ToBatch? ==> building == Some(k.destination.batch)
    ensures CountsValid(batches, works[w := k], building, false)
  {
    forall b | b in batches ensures batches[b].pending == |Counted(works[w := k], b)| {
      CountedOfSpawn(works, w, k, b);
    }
  }

  lemma SpawnKeepsValid(s: State, k: Work)
    requires Valid(s) && Spawnable(s, k)
    ensures Valid(Spawned(s, k))
  {
    SpawnKeepsRequests(s, k);
    SpawnKeepsOwners(s, k);
    NextWorkIsFresh(s);
    CountsSpawn(s.batches, s.works, s.building, s.slack, s.spawned, k);
    RecordsEvolve(s, Moved(s.requests, k.origin, InFlight(s.spawned)));
  }

  // ---------------------------------------------------------------- giving up on a request

  function IdInHand(s: State): set<RpcId>
  {
    if s.hand.Some? && s.hand.value < |s.requests| then {s.requests[s.hand.value].id} else {}
  }

  /** The session is closed or suspended: the call in hand is neither run nor answered. */
  function DroppedHand(s: State): State
  {
    s.(outstanding := s.outstanding - IdInHand(s), owners := s.owners - IdInHand(s),
       requests := Moved(s.requests, s.hand, Dropped), hand := None, scheduling := false)
  }

  lemma RequestsDrop(requests: seq<Request>, hand: Option<nat>, works: map<nat, Work>, batches: map<nat, Assembly>,
                     output: seq<Frame>, closed: bool, cutoff: Option<nat>)
    requires RequestsValid(requests, hand, works, batches, output, closed, cutoff)
    requires closed || (cutoff.Some? && (hand.Some? ==> cutoff.value <= hand.value))
    ensures RequestsValid(Moved(requests, hand, Dropped), None, works, batches, output, closed, cutoff)
  {
  }

  /** No work is bound to a request that the loop holds. */
  lemma WorksKeep(works: map<nat, Work>, spawned: nat, requests: seq<Request>, batches: map<nat, Assembly>,
                  hand: Option<nat>, fate: Fate)
    requires WorksValid(works, spawned, requests, batches)
    requires hand.Some? ==> hand.value < |requests| && requests[hand.value].fate == InHand
    ensures WorksValid(works, spawned, Moved(requests, hand, fate), batches)
  {
  }

  lemma DropHandKeepsValid(s: State)
    requires Valid(s)
    requires s.closed || (s.cutoff.Some? && (s.hand.Some? ==> s.cutoff.value <= s.hand.value))
    ensures Valid(DroppedHand(s))
  {
    RequestsDrop(s.requests, s.hand, s.works, s.batches, s.output, s.closed, s.cutoff);
    WorksKeep(s.works, s.spawned, s.requests, s.batches, s.hand, Dropped);
    RecordsEvolve(s, Moved(s.requests, s.hand, Dropped));
  }

  /** The transport is closed while the loop holds a request it can no longer answer. */
  function LostHand(s: State): State
  {
    s.(requests := Moved(s.requests, s.hand, Dropped), hand := None, scheduling := false)
  }

  lemma LoseHandKeepsValid(s: State)
    requires Valid(s) && s.closed
    ensures Valid(LostHand(s))
  {
    hide WorksValid, BatchesValid, CountsValid, OwnersValid, SentValid, BatchFramesValid, OpenedValid, LifecycleValid;
    RequestsDrop(s.requests, s.hand, s.works, s.batches, s.output, s.closed, s.cutoff);
    WorksKeep(s.works, s.spawned, s.requests, s.batches, s.hand, Dropped);
    RecordsEvolve(s, Moved(s.requests, s.hand, Dropped));
  }

  /** A single call answered at once: its id is free again and the loop still holds the request. */
  function Released(s: State): State
  {
    s.(outstanding := s.outstanding - IdInHand(s), owners := s.owners - IdInHand(s), scheduling := false)
  }

  lemma OwnersRelease(outstanding: set<RpcId>, owners: map<RpcId, Owner>, id: RpcId,
                      works: map<nat, Work>, batches: map<nat, Assembly>)
    requires OwnersValid(outstanding, owners, Some(id), works, batches)
    ensures OwnersValid(outstanding - {id}, owners - {id}, None, works, batches)
  {
  }

  lemma ReleaseKeepsValid(s: State)
    requires Valid(s) && s.scheduling && s.hand.Some?
    ensures Valid(Released(s))
  {
    if s.accepting && !s.closed {
      OwnersRelease(s.outstanding, s.owners, s.requests[s.hand.value].id, s.works, s.batches);
    }
  }

  // ---------------------------------------------------------------- results

  /** The loop receives the result of work `w` and holds the request it answers. A counted batch
      member leaves the batch waiting for one call fewer than it still counts. */
  function Taken(s: State, w: nat): State
    requires w in s.works
  {
    var k := s.works[w];
    var ids := if k.destination.ToSingle? && k.id.Some? then {k.id.value} else {};
    s.(works := s.works - {w},
       outstanding := s.outstanding - ids, owners := s.owners - ids,
       requests := Moved(s.requests, k.origin, InHand), hand := k.origin,
       building := if k.destination.ToBatch? && k.counts then Some(k.destination.batch) else None,
       slack := k.destination.ToBatch? && k.counts)
  }

  lemma CountedOfTake(works: map<nat, Work>, w: nat, b: nat)
    requires w in works
    ensures |Counted(works, b)| ==
              |Counted(works - {w}, b)| + if works[w].counts && works[w].destination == ToBatch(b) then 1 else 0
  {
    if works[w].counts && works[w].destination == ToBatch(b) {
      assert Counted(works, b) == Counted(works - {w}, b) + {w};
    } else {
      assert Counted(works, b) == Counted(works - {w}, b);
    }
  }

  lemma CountsTake(batches: map<nat, Assembly>, works: map<nat, Work>, w: nat)
    requires CountsValid(batches, works, None, false) && w in works
    requires works[w].destination.ToBatch? && works[w].counts ==> works[w].destination.batch in batches
    ensures var slack := works[w].destination.ToBatch? && works[w].counts;
            CountsValid(batches, works - {w}, if slack then Some(works[w].destination.batch) else None, slack)
  {
    forall b | b in batches ensures batches[b].pending ==
      |Counted(works - {w}, b)| + if works[w].counts && works[w].destination == ToBatch(b) then 1 else 0
    {
      CountedOfTake(works, w, b);
    }
  }

  lemma RequestsTake(requests: seq<Request>, works: map<nat, Work>, w: nat, batches: map<nat, Assembly>,
                     output: seq<Frame>, closed: bool, cutoff: Option<nat>)
    requires RequestsValid(requests, None, works, batches, output, closed, cutoff) && w in works
    requires works[w].origin.Some? ==>
               works[w].origin.value < |requests| && requests[works[w].origin.value].fate == InFlight(w)
    ensures RequestsValid(Moved(requests, works[w].origin, InHand), works[w].origin, works - {w}, batches, output, closed, cutoff)
  {
  }

  lemma OwnersTake(outstanding: set<RpcId>, owners: map<RpcId, Owner>, works: map<nat, Work>, w: nat, batches: map<nat, Assembly>)
    requires OwnersValid(outstanding, owners, None, works, batches) && w in works
    ensures var ids := if works[w].destination.ToSingle? && works[w].id.Some? then {works[w].id.value} else {};
            OwnersValid(outstanding - ids, owners - ids, None, works - {w}, batches)
  {
  }

  lemma TakeKeepsWorks(s: State, w: nat)
    requires Valid(s) && w in s.works
    ensures WorkValid(w, s.works[w], s.spawned, s.requests, s.batches)
    ensures WorksValid(s.works - {w}, s.spawned, Moved(s.requests, s.works[w].origin, InHand), s.batches)
  {
  }

  lemma TakeKeepsOwners(s: State, w: nat)
    requires Valid(s) && !s.scheduling && w in s.works
    ensures var t := Taken(s, w);
            t.accepting && !t.closed ==> OwnersValid(t.outstanding, t.owners, None, t.works, t.batches)
  {
    if s.accepting && !s.closed { OwnersTake(s.outstanding, s.owners, s.works, w, s.batches); }
  }

  lemma TakeKeepsRecords(s: State, w: nat)
    requires Valid(s) && w in s.works
    ensures var requests := Moved(s.requests, s.works[w].origin, InHand);
            && BatchesValid(s.batches, s.batchesRead, requests, s.accepting)
            && SentValid(s.output, requests)
            && BatchFramesValid(s.output, requests, s.cutoff)
  {
    assert WorkValid(w, s.works[w], s.spawned, s.requests, s.batches);
    RecordsEvolve(s, Moved(s.requests, s.works[w].origin, InHand));
  }

  lemma TakeKeepsValid(s: State, w: nat)
    requires Valid(s) && s.hand.None? && !s.scheduling && s.building.None? && !s.slack
    requires w in s.works
    ensures Valid(Taken(s, w))
  {
    TakeKeepsWorks(s, w);
    TakeKeepsRecords(s, w);
    TakeKeepsOwners(s, w);
    RequestsTake(s.requests, s.works, w, s.batches, s.output, s.closed, s.cutoff);
    CountsTake(s.batches, s.works, w);
  }

  // ---------------------------------------------------------------- sending

  /** A single reply is queued. */
  function SentSingle(s: State, r: Reply): State
  {
    s.(output := s.output + [SingleFrame(r)],
       requests := Moved(s.requests, s.hand, Sent(|s.output|, 0)), hand := None,
       openedAt := if s.openedAt.None? && OpeningReply(SingleFrame(r)) then Some(|s.output|) else s.openedAt)
  }

  ghost predicate Sendable(s: State, r: Reply)
  {
    && Quiet(s.output) && !s.scheduling && !s.notified
    && r.origin == s.hand
    && (s.hand.Some? ==> s.hand.value < |s.requests| && s.requests[s.hand.value].id == r.id)
    && (r.lifecycle.Some? ==> !s.accepting)
    && (s.hand.None? ==> !r.success)
  }

  lemma RequestsSend(requests: seq<Request>, hand: Option<nat>, works: map<nat, Work>, batches: map<nat, Assembly>,
                     output: seq<Frame>, closed: bool, cutoff: Option<nat>, r: Reply)
    requires RequestsValid(requests, hand, works, batches, output, closed, cutoff)
    requires r.origin == hand
    ensures RequestsValid(Moved(requests, hand, Sent(|output|, 0)), None, works, batches, output + [SingleFrame(r)], closed, cutoff)
  {
  }

  lemma SentSend(output: seq<Frame>, requests: seq<Request>, hand: Option<nat>, r: Reply)
    requires SentValid(output, requests)
    requires r.origin == hand
    requires hand.Some? ==> hand.value < |requests| && requests[hand.value].id == r.id && requests[hand.value].fate == InHand
    ensures SentValid(output + [SingleFrame(r)], Moved(requests, hand, Sent(|output|, 0)))
  {
    var after := Moved(requests, hand, Sent(|output|, 0));
    var output' := output + [SingleFrame(r)];
    forall k, j | HasReply(output', k, j) && ReplyAt(output', k, j).origin.Some?
      ensures var o := ReplyAt(output', k, j).origin.value;
              o < |after| && after[o].fate == Sent(k, j) && after[o].id == ReplyAt(output', k, j).id
    {
      HasReplyOfAppend(output, SingleFrame(r), k, j);
    }
  }

  /** A request that the loop holds belongs to no queued frame. */
  lemma BatchFramesSend(output: seq<Frame>, requests: seq<Request>, cutoff: Option<nat>, hand: Option<nat>, f: Frame, fate: Fate)
    requires BatchFramesValid(output, requests, cutoff)
    requires hand.Some? ==> hand.value < |requests| && requests[hand.value].fate == InHand
    requires !f.BatchFrame?
    ensures BatchFramesValid(output + [f], Moved(requests, hand, fate), cutoff)
  {
  }

  lemma BatchesSend(batches: map<nat, Assembly>, batchesRead: nat, requests: seq<Request>, accepting: bool, hand: Option<nat>, fate: Fate)
    requires BatchesValid(batches, batchesRead, requests, accepting)
    requires hand.Some? ==> hand.value < |requests| && requests[hand.value].fate == InHand && requests[hand.value].home == ToSingle
    ensures BatchesValid(batches, batchesRead, Moved(requests, hand, fate), accepting)
  {
    var after := Moved(requests, hand, fate);
    forall b | b in batches
      ensures MembersValid(b, batches[b], batchesRead, after) && RepliesValid(b, batches[b], after, accepting)
    {
      assert MembersValid(b, batches[b], batchesRead, requests) && RepliesValid(b, batches[b], requests, accepting);
    }
  }

  lemma LifecycleSend(output: seq<Frame>, accepting: bool, notified: bool, f: Frame)
    requires Quiet(output) && !notified && !f.NoticeFrame?
    requires FrameLifecycle(f).Some? ==> !accepting
    ensures LifecycleValid(output + [f], accepting, notified)
  {
  }

  lemma SendSingleKeepsRecords(s: State, r: Reply)
    requires Valid(s) && Sendable(s, r)
    requires s.hand.Some? ==> s.requests[s.hand.value].home == ToSingle
    ensures var t := SentSingle(s, r);
            && WorksValid(t.works, t.spawned, t.requests, t.batches)
            && RequestsValid(t.requests, t.hand, t.works, t.batches, t.output, t.closed, t.cutoff)
            && BatchesValid(t.batches, t.batchesRead, t.requests, t.accepting)
  {
    RequestsSend(s.requests, s.hand, s.works, s.batches, s.output, s.closed, s.cutoff, r);
    WorksKeep(s.works, s.spawned, s.requests, s.batches, s.hand, Sent(|s.output|, 0));
    BatchesSend(s.batches, s.batchesRead, s.requests, s.accepting, s.hand, Sent(|s.output|, 0));
  }

  lemma SendSingleKeepsOutput(s: State, r: Reply)
    requires Valid(s) && Sendable(s, r)
    ensures SentValid(s.output + [SingleFrame(r)], Moved(s.requests, s.hand, Sent(|s.output|, 0)))
    ensures BatchFramesValid(s.output + [SingleFrame(r)], Moved(s.requests, s.hand, Sent(|s.output|, 0)), s.cutoff)
  {
    SentSend(s.output, s.requests, s.hand, r);
    BatchFramesSend(s.output, s.requests, s.cutoff, s.hand, SingleFrame(r), Sent(|s.output|, 0));
  }

  lemma SendSingleKeepsOpened(s: State, r: Reply)
    requires Valid(s) && Sendable(s, r)
    ensures OpenedValid(SentSingle(s, r).output, SentSingle(s, r).openedAt)
    ensures LifecycleValid(s.output + [SingleFrame(r)], s.accepting, s.notified)
  {
  }

  lemma SendSingleKeepsValid(s: State, r: Reply)
    requires Valid(s) && Sendable(s, r)
    requires s.hand.Some? ==> s.requests[s.hand.value].home == ToSingle
    ensures Valid(SentSingle(s, r))
  {
    SendSingleKeepsRecords(s, r);
    SendSingleKeepsOutput(s, r);
    SendSingleKeepsOpened(s, r);
  }

  // ---------------------------------------------------------------- suspension and notice

  function Suspended(s: State): State
  {
    s.(accepting := false, cutoff := if s.accepting then Some(|s.requests|) else s.cutoff)
  }

  lemma BatchesSuspend(batches: map<nat, Assembly>, batchesRead: nat, requests: seq<Request>, accepting: bool)
    requires BatchesValid(batches, batchesRead, requests, accepting)
    ensures BatchesValid(batches, batchesRead, requests, false)
  {
  }

  lemma BatchFramesSuspend(output: seq<Frame>, requests: seq<Request>)
    requires BatchFramesValid(output, requests, None)
    ensures BatchFramesValid(output, requests, Some(|requests|))
  {
  }

  lemma SuspendingKeepsValid(s: State)
    requires Valid(s) && s.accepting
    ensures Valid(s.(accepting := false, cutoff := Some(|s.requests|)))
  {
    forall o | 0 <= o < |s.requests|
      ensures RequestValid(o, s.requests[o], s.hand, s.works, s.batches, s.output, s.closed, Some(|s.requests|))
    {
      assert RequestValid(o, s.requests[o], s.hand, s.works, s.batches, s.output, s.closed, s.cutoff);
    }
    BatchesSuspend(s.batches, s.batchesRead, s.requests, s.accepting);
    BatchFramesSuspend(s.output, s.requests);
  }

  lemma SuspendKeepsValid(s: State)
    requires Valid(s)
    ensures Valid(Suspended(s))
  {
    if s.accepting { SuspendingKeepsValid(s); }
  }

  /** The session is suspended and the notice slot is taken: no second notice can follow. */
  function Notifying(s: State): State { Suspended(s).(notified := true) }

  lemma NotifyKeepsValid(s: State)
    requires Valid(s)
    ensures Valid(Notifying(s))
  {
    SuspendKeepsValid(s);
  }

  function Noticed(s: State, failure: LifecycleFailure): State { s.(output := s.output + [NoticeFrame(failure)]) }

  /** A notice may follow a quiet output or the very frame that carries the same failure. */
  ghost predicate Noticeable(output: seq<Frame>, failure: LifecycleFailure)
  {
    || Quiet(output)
    || (|output| > 0 && Quiet(output[..|output| - 1]) && FrameLifecycle(output[|output| - 1]) == Some(failure))
  }

  lemma LifecycleNotice(output: seq<Frame>, failure: LifecycleFailure)
    requires Noticeable(output, failure)
    ensures LifecycleValid(output + [NoticeFrame(failure)], false, true)
  {
  }

  lemma OpenedNotice(output: seq<Frame>, openedAt: Option<nat>, failure: LifecycleFailure)
    requires OpenedValid(output, openedAt)
    ensures OpenedValid(output + [NoticeFrame(failure)], openedAt)
  {
  }

  lemma NoticeKeepsValid(s: State, failure: LifecycleFailure)
    requires Valid(s) && s.notified && Noticeable(s.output, failure)
    ensures Valid(Noticed(s, failure))
  {
    AppendKeepsBookkeeping(s, NoticeFrame(failure));
    LifecycleNotice(s.output, failure);
    OpenedNotice(s.output, s.openedAt, failure);
  }
}

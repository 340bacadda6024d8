/** Changes of a batch under assembly: it is begun, waits for calls, collects replies and is
    flushed as one frame. Each change keeps the session invariant. */
module SessionBatches {
  import opened Json
  import opened Protocol
  import opened SessionState
  import opened SessionSteps

  const EMPTY := Assembly(0, [], [], None, false, false, 0, 0)

  function Begun(s: State): State
  {
    s.(batches := s.batches[s.batchesRead := EMPTY.(base := |s.requests|)],
       batchesRead := s.batchesRead + 1, building := Some(s.batchesRead))
  }

  lemma BatchesBegin(batches: map<nat, Assembly>, batchesRead: nat, requests: seq<Request>, accepting: bool)
    requires BatchesValid(batches, batchesRead, requests, accepting)
    ensures batchesRead !in batches
    ensures BatchesValid(batches[batchesRead := EMPTY.(base := |requests|)], batchesRead + 1, requests, accepting)
  {
  }

  lemma WorksBegin(works: map<nat, Work>, spawned: nat, requests: seq<Request>, batches: map<nat, Assembly>, b: nat, a: Assembly)
    requires WorksValid(works, spawned, requests, batches) && b !in batches
    ensures WorksValid(works, spawned, requests, batches[b := a])
  {
  }

  lemma RequestsBegin(requests: seq<Request>, hand: Option<nat>, works: map<nat, Work>, batches: map<nat, Assembly>,
                      output: seq<Frame>, closed: bool, cutoff: Option<nat>, b: nat, a: Assembly)
    requires RequestsValid(requests, hand, works, batches, output, closed, cutoff) && b !in batches
    ensures RequestsValid(requests, hand, works, batches[b := a], output, closed, cutoff)
  {
  }

  lemma CountsBegin(batches: map<nat, Assembly>, works: map<nat, Work>, spawned: nat, requests: seq<Request>, b: nat, base: nat)
    requires CountsValid(batches, works, None, false) && b !in batches
    requires WorksValid(works, spawned, requests, batches)
    ensures CountsValid(batches[b := EMPTY.(base := base)], works, Some(b), false)
  {
  }

  lemma OwnersBegin(outstanding: set<RpcId>, owners: map<RpcId, Owner>, works: map<nat, Work>, batches: map<nat, Assembly>,
                    b: nat, base: nat)
    requires OwnersValid(outstanding, owners, None, works, batches) && b !in batches
    ensures OwnersValid(outstanding, owners, None, works, batches[b := EMPTY.(base := base)])
  {
  }

  lemma BeginKeepsCounts(s: State)
    requires Valid(s) && !s.scheduling && s.building.None? && !s.slack
    ensures var t := Begun(s);
            && CountsValid(t.batches, t.works, t.building, t.slack)
            && (t.accepting && !t.closed ==> OwnersValid(t.outstanding, t.owners, None, t.works, t.batches))
  {
    BatchesBegin(s.batches, s.batchesRead, s.requests, s.accepting);
    CountsBegin(s.batches, s.works, s.spawned, s.requests, s.batchesRead, |s.requests|);
    if s.accepting && !s.closed {
      OwnersBegin(s.outstanding, s.owners, s.works, s.batches, s.batchesRead, |s.requests|);
    }
  }

  lemma BeginKeepsValid(s: State)
    requires Valid(s) && !s.scheduling && s.building.None? && !s.slack && s.openedAt.Some?
    ensures Valid(Begun(s))
  {
    BeginKeepsCounts(s);
    BatchesBegin(s.batches, s.batchesRead, s.requests, s.accepting);
    WorksBegin(s.works, s.spawned, s.requests, s.batches, s.batchesRead, EMPTY.(base := |s.requests|));
    RequestsBegin(s.requests, s.hand, s.works, s.batches, s.output, s.closed, s.cutoff, s.batchesRead, EMPTY.(base := |s.requests|));
  }

  /** The batch stops waiting for the call whose outcome the loop now knows. */
  function Withdrawn(s: State, b: nat): State
    requires b in s.batches && s.batches[b].pending > 0
  {
    s.(batches := s.batches[b := s.batches[b].(pending := s.batches[b].pending - 1)], slack := false)
  }

  /** Two assemblies that differ in nothing the bookkeeping of requests depends on. */
  predicate SameMembers(a: Assembly, c: Assembly)
  {
    && a.replies == c.replies && a.requestIds == c.requestIds && a.lifecycle == c.lifecycle
    && a.base == c.base && a.invalid == c.invalid
  }

  lemma WorksReplace(works: map<nat, Work>, spawned: nat, requests: seq<Request>, batches: map<nat, Assembly>, b: nat, c: Assembly)
    requires WorksValid(works, spawned, requests, batches) && b in batches && SameMembers(batches[b], c)
    ensures WorksValid(works, spawned, requests, batches[b := c])
  {
  }

  lemma RequestsReplace(requests: seq<Request>, hand: Option<nat>, works: map<nat, Work>, batches: map<nat, Assembly>,
                        output: seq<Frame>, closed: bool, cutoff: Option<nat>, b: nat, c: Assembly)
    requires RequestsValid(requests, hand, works, batches, output, closed, cutoff) && b in batches
    requires SameMembers(batches[b], c)
    ensures RequestsValid(requests, hand, works, batches[b := c], output, closed, cutoff)
  {
  }

  lemma BatchesPut(batches: map<nat, Assembly>, batchesRead: nat, requests: seq<Request>, accepting: bool, b: nat, c: Assembly)
    requires BatchesValid(batches, batchesRead, requests, accepting)
    requires MembersValid(b, c, batchesRead, requests) && RepliesValid(b, c, requests, accepting)
    ensures BatchesValid(batches[b := c], batchesRead, requests, accepting)
  {
  }

  lemma BatchesReplace(batches: map<nat, Assembly>, batchesRead: nat, requests: seq<Request>, accepting: bool, b: nat, c: Assembly)
    requires BatchesValid(batches, batchesRead, requests, accepting) && b in batches && SameMembers(batches[b], c)
    ensures BatchesValid(batches[b := c], batchesRead, requests, accepting)
  {
  }

  lemma RecordsReplace(s: State, b: nat, c: Assembly)
    requires Valid(s) && b in s.batches && SameMembers(s.batches[b], c)
    ensures WorksValid(s.works, s.spawned, s.requests, s.batches[b := c])
    ensures RequestsValid(s.requests, s.hand, s.works, s.batches[b := c], s.output, s.closed, s.cutoff)
    ensures BatchesValid(s.batches[b := c], s.batchesRead, s.requests, s.accepting)
  {
    WorksReplace(s.works, s.spawned, s.requests, s.batches, b, c);
    RequestsReplace(s.requests, s.hand, s.works, s.batches, s.output, s.closed, s.cutoff, b, c);
    BatchesReplace(s.batches, s.batchesRead, s.requests, s.accepting, b, c);
  }

  lemma CountsReplace(batches: map<nat, Assembly>, works: map<nat, Work>, building: Option<nat>, slack: bool, b: nat, c: Assembly)
    requires CountsValid(batches, works, building, slack) && b in batches && c.pending == batches[b].pending
    ensures CountsValid(batches[b := c], works, building, slack)
  {
  }

  lemma CountsWithdraw(batches: map<nat, Assembly>, works: map<nat, Work>, b: nat, c: Assembly)
    requires CountsValid(batches, works, Some(b), true)
    requires b in batches && c.pending == batches[b].pending - 1
    ensures CountsValid(batches[b := c], works, Some(b), false)
  {
  }

  lemma OwnersReplace(outstanding: set<RpcId>, owners: map<RpcId, Owner>, held: Option<RpcId>, works: map<nat, Work>,
                      batches: map<nat, Assembly>, b: nat, c: Assembly)
    requires OwnersValid(outstanding, owners, held, works, batches) && b in batches
    requires batches[b].requestIds == c.requestIds
    ensures OwnersValid(outstanding, owners, held, works, batches[b := c])
  {
  }

  lemma ReplaceKeepsOwners(s: State, b: nat, c: Assembly)
    requires Valid(s) && b in s.batches && s.batches[b].requestIds == c.requestIds
    ensures s.accepting && !s.closed ==> OwnersValid(s.outstanding, s.owners, Held(s), s.works, s.batches[b := c])
  {
    if s.accepting && !s.closed { OwnersReplace(s.outstanding, s.owners, Held(s), s.works, s.batches, b, c); }
  }

  lemma WaitingForCall(s: State, b: nat)
    requires Valid(s) && s.building == Some(b) && s.slack
    ensures b in s.batches && s.batches[b].pending > 0
  {
  }

  lemma WithdrawKeepsValid(s: State, b: nat)
    requires Valid(s) && s.building == Some(b) && s.slack
    requires b in s.batches && s.batches[b].pending > 0
    ensures Valid(Withdrawn(s, b))
  {
    var c := s.batches[b].(pending := s.batches[b].pending - 1);
    RecordsReplace(s, b, c);
    ReplaceKeepsOwners(s, b, c);
    CountsWithdraw(s.batches, s.works, b, c);
  }

  /** The activation and closing flags of a batch are not part of its members' bookkeeping. */
  lemma FlagKeepsValid(s: State, b: nat, c: Assembly)
    requires Valid(s) && b in s.batches && SameMembers(s.batches[b], c) && c.pending == s.batches[b].pending
    ensures Valid(s.(batches := s.batches[b := c]))
  {
    RecordsReplace(s, b, c);
    ReplaceKeepsOwners(s, b, c);
    CountsReplace(s.batches, s.works, s.building, s.slack, b, c);
  }

  // ---------------------------------------------------------------- collecting a reply

  function WithReply(a: Assembly, r: Reply, closeAfterError: bool): Assembly
  {
    a.(replies := a.replies + [r],
       lifecycle := if a.lifecycle.Some? then a.lifecycle else r.lifecycle,
       closeAfterError := a.closeAfterError || (closeAfterError && !r.success),
       invalid := a.invalid + if r.origin.None? then 1 else 0)
  }

  function Pushed(s: State, b: nat, r: Reply, closeAfterError: bool): State
    requires b in s.batches
  {
    s.(batches := s.batches[b := WithReply(s.batches[b], r, closeAfterError)],
       requests := Moved(s.requests, s.hand, Assembled(|s.batches[b].replies|)), hand := None)
  }

  /** The reply belongs to the batch: it answers the member in hand, or no request at all. */
  ghost predicate Pushable(b: nat, a: Assembly, requests: seq<Request>, hand: Option<nat>, accepting: bool, r: Reply)
  {
    && r.origin == hand
    && (r.lifecycle.Some? ==> !accepting)
    && (hand.Some? ==> hand.value < |requests| && requests[hand.value] == Request(r.id, ToBatch(b), InHand) &&
                       InRange(a, hand.value))
  }

  lemma WorksPush(works: map<nat, Work>, spawned: nat, requests: seq<Request>, batches: map<nat, Assembly>, b: nat, c: Assembly)
    requires WorksValid(works, spawned, requests, batches) && b in batches
    requires c.base == batches[b].base && c.requestIds == batches[b].requestIds
    ensures WorksValid(works, spawned, requests, batches[b := c])
  {
  }

  lemma RequestsPush(requests: seq<Request>, hand: Option<nat>, works: map<nat, Work>, batches: map<nat, Assembly>,
                     output: seq<Frame>, closed: bool, cutoff: Option<nat>, b: nat, r: Reply, closeAfterError: bool)
    requires RequestsValid(requests, hand, works, batches, output, closed, cutoff) && b in batches
    requires r.origin == hand
    requires hand.Some? ==> hand.value < |requests| && requests[hand.value].home == ToBatch(b)
    ensures RequestsValid(Moved(requests, hand, Assembled(|batches[b].replies|)), None, works,
                          batches[b := WithReply(batches[b], r, closeAfterError)], output, closed, cutoff)
  {
  }

  lemma RepliesPush(b: nat, a: Assembly, requests: seq<Request>, accepting: bool, hand: Option<nat>, r: Reply, closeAfterError: bool)
    requires RepliesValid(b, a, requests, accepting)
    requires Pushable(b, a, requests, hand, accepting, r)
    ensures RepliesValid(b, WithReply(a, r, closeAfterError), Moved(requests, hand, Assembled(|a.replies|)), accepting)
  {
    UnowedOfAppend(a.replies, r);
    FirstOfAppend(a.replies, r);
  }

  lemma MembersPush(b: nat, a: Assembly, batchesRead: nat, requests: seq<Request>, r: Reply, closeAfterError: bool)
    requires MembersValid(b, a, batchesRead, requests)
    ensures MembersValid(b, WithReply(a, r, closeAfterError), batchesRead, requests)
  {
  }

  lemma BatchesPush(batches: map<nat, Assembly>, batchesRead: nat, requests: seq<Request>, accepting: bool, hand: Option<nat>,
                    b: nat, r: Reply, closeAfterError: bool)
    requires BatchesValid(batches, batchesRead, requests, accepting) && b in batches
    requires Pushable(b, batches[b], requests, hand, accepting, r)
    ensures BatchesValid(batches[b := WithReply(batches[b], r, closeAfterError)], batchesRead,
                         Moved(requests, hand, Assembled(|batches[b].replies|)), accepting)
  {
    hide MembersValid, RepliesValid, WithReply;
    var requests' := Moved(requests, hand, Assembled(|batches[b].replies|));
    BatchesEvolve(batches, batchesRead, requests, requests', accepting);
    RepliesPush(b, batches[b], requests, accepting, hand, r, closeAfterError);
    MembersPush(b, batches[b], batchesRead, requests', r, closeAfterError);
    BatchesPut(batches, batchesRead, requests', accepting, b, WithReply(batches[b], r, closeAfterError));
  }

  lemma CountsPush(batches: map<nat, Assembly>, works: map<nat, Work>, building: Option<nat>, slack: bool,
                   b: nat, r: Reply, closeAfterError: bool)
    requires CountsValid(batches, works, building, slack) && b in batches
    ensures CountsValid(batches[b := WithReply(batches[b], r, closeAfterError)], works, building, slack)
  {
  }

  lemma PushKeepsWorks(s: State, b: nat, r: Reply, closeAfterError: bool)
    requires Valid(s) && b in s.batches
    ensures var t := Pushed(s, b, r, closeAfterError); WorksValid(t.works, t.spawned, t.requests, t.batches)
  {
    var fate := Assembled(|s.batches[b].replies|);
    WorksKeep(s.works, s.spawned, s.requests, s.batches, s.hand, fate);
    WorksPush(s.works, s.spawned, Moved(s.requests, s.hand, fate), s.batches, b, WithReply(s.batches[b], r, closeAfterError));
  }

  lemma PushKeepsValid(s: State, b: nat, r: Reply, closeAfterError: bool)
    requires Valid(s) && s.building == Some(b) && b in s.batches && !s.scheduling
    requires Pushable(b, s.batches[b], s.requests, s.hand, s.accepting, r)
    ensures Valid(Pushed(s, b, r, closeAfterError))
  {
    hide WorksValid, BatchesValid, CountsValid, RequestsValid, OwnersValid, SentValid, BatchFramesValid, OpenedValid, LifecycleValid;
    PushKeepsWorks(s, b, r, closeAfterError);
    RequestsPush(s.requests, s.hand, s.works, s.batches, s.output, s.closed, s.cutoff, b, r, closeAfterError);
    BatchesPush(s.batches, s.batchesRead, s.requests, s.accepting, s.hand, b, r, closeAfterError);
    RecordsEvolve(s, Moved(s.requests, s.hand, Assembled(|s.batches[b].replies|)));
    ReplaceKeepsOwners(s, b, WithReply(s.batches[b], r, closeAfterError));
    CountsPush(s.batches, s.works, s.building, s.slack, b, r, closeAfterError);
  }

  // ---------------------------------------------------------------- flushing

  /** The assembled members of batch `b` are now in frame `k`. */
  function Resettled(requests: seq<Request>, b: nat, k: nat): (r: seq<Request>)
    ensures |r| == |requests|
    ensures forall o :: 0 <= o < |r| ==>
              r[o] == if requests[o].home == ToBatch(b) && requests[o].fate.Assembled?
                      then requests[o].(fate := Sent(k, requests[o].fate.slot)) else requests[o]
  {
    seq(|requests|, o requires 0 <= o < |requests| =>
      if requests[o].home == ToBatch(b) && requests[o].fate.Assembled?
      then requests[o].(fate := Sent(k, requests[o].fate.slot)) else requests[o])
  }

  function IdsOf(a: Assembly): set<RpcId> { set id | id in a.requestIds }

  /** A completed batch leaves the session: its frame is queued (unless it is empty) and its ids
      are free again. */
  function Flushed(s: State, b: nat): State
    requires b in s.batches
  {
    var a := s.batches[b];
    s.(batches := s.batches - {b}, building := None,
       outstanding := s.outstanding - IdsOf(a), owners := s.owners - IdsOf(a),
       output := if a.replies == [] then s.output else s.output + [BatchFrame(a, Render(a.replies))],
       requests := Resettled(s.requests, b, |s.output|))
  }

  lemma WorksFlush(works: map<nat, Work>, spawned: nat, requests: seq<Request>, batches: map<nat, Assembly>, b: nat, k: nat)
    requires WorksValid(works, spawned, requests, batches) && b in batches
    requires Counted(works, b) == {}
    ensures WorksValid(works, spawned, Resettled(requests, b, k), batches - {b})
  {
    forall w | w in works ensures WorkValid(w, works[w], spawned, Resettled(requests, b, k), batches - {b}) {
      assert WorkValid(w, works[w], spawned, requests, batches);
      assert w !in Counted(works, b);
    }
  }

  lemma RequestsFlush(requests: seq<Request>, works: map<nat, Work>, batches: map<nat, Assembly>,
                      output: seq<Frame>, closed: bool, cutoff: Option<nat>, b: nat)
    requires RequestsValid(requests, None, works, batches, output, closed, cutoff) && b in batches
    ensures var a := batches[b];
            var output' := if a.replies == [] then output else output + [BatchFrame(a, Render(a.replies))];
            RequestsValid(Resettled(requests, b, |output|), None, works, batches - {b}, output', closed, cutoff)
  {
  }

  lemma OtherBatchKeeps(d: nat, a: Assembly, batchesRead: nat, requests: seq<Request>, accepting: bool, b: nat, k: nat)
    requires MembersValid(d, a, batchesRead, requests) && RepliesValid(d, a, requests, accepting) && d != b
    ensures MembersValid(d, a, batchesRead, Resettled(requests, b, k)) && RepliesValid(d, a, Resettled(requests, b, k), accepting)
  {
  }

  lemma BatchesFlush(batches: map<nat, Assembly>, batchesRead: nat, requests: seq<Request>, accepting: bool, b: nat, k: nat)
    requires BatchesValid(batches, batchesRead, requests, accepting) && b in batches
    ensures BatchesValid(batches - {b}, batchesRead, Resettled(requests, b, k), accepting)
  {
    hide MembersValid, RepliesValid;
    forall d | d in batches && d != b
      ensures MembersValid(d, batches[d], batchesRead, Resettled(requests, b, k))
      ensures RepliesValid(d, batches[d], Resettled(requests, b, k), accepting)
    {
      OtherBatchKeeps(d, batches[d], batchesRead, requests, accepting, b, k);
    }
  }

  lemma CountsFlush(batches: map<nat, Assembly>, works: map<nat, Work>, b: nat)
    requires CountsValid(batches, works, Some(b), false)
    requires batches[b].pending == 0
    ensures Counted(works, b) == {}
    ensures CountsValid(batches - {b}, works, None, false)
  {
  }

  lemma OwnersFlush(outstanding: set<RpcId>, owners: map<RpcId, Owner>, works: map<nat, Work>, batches: map<nat, Assembly>, b: nat)
    requires OwnersValid(outstanding, owners, None, works, batches) && b in batches
    ensures OwnersValid(outstanding - IdsOf(batches[b]), owners - IdsOf(batches[b]), None, works, batches - {b})
  {
  }

  lemma SentFlush(output: seq<Frame>, requests: seq<Request>, batches: map<nat, Assembly>, batchesRead: nat, accepting: bool, b: nat)
    requires SentValid(output, requests) && b in batches
    requires BatchesValid(batches, batchesRead, requests, accepting)
    ensures var a := batches[b];
            var output' := if a.replies == [] then output else output + [BatchFrame(a, Render(a.replies))];
            SentValid(output', Resettled(requests, b, |output|))
  {
    var a := batches[b];
    var output' := if a.replies == [] then output else output + [BatchFrame(a, Render(a.replies))];
    var after := Resettled(requests, b, |output|);
    assert RepliesValid(b, a, requests, accepting);
    forall k, j | HasReply(output', k, j) && ReplyAt(output', k, j).origin.Some?
      ensures var o := ReplyAt(output', k, j).origin.value;
              o < |after| && after[o].fate == Sent(k, j) && after[o].id == ReplyAt(output', k, j).id
    {
      hide BatchesValid, MembersValid, Unowed, First, Render;
      if k < |output| {
        assert HasReply(output, k, j) && ReplyAt(output, k, j) == ReplyAt(output', k, j);
      } else {
        assert ReplyAt(output', k, j) == a.replies[j];
      }
    }
  }

  /** The queued batch frame is complete: every member that had to be answered is in it. */
  lemma FlushedFrameIsComplete(b: nat, a: Assembly, batchesRead: nat, requests: seq<Request>, accepting: bool,
                               cutoff: Option<nat>, k: nat)
    requires MembersValid(b, a, batchesRead, requests) && RepliesValid(b, a, requests, accepting)
    requires a.replies != []
    requires forall o :: a.base <= o < a.base + |a.requestIds| && (cutoff.None? || o < cutoff.value) ==>
               requests[o].fate.Assembled?
    ensures BatchFrameValid(k, a, Render(a.replies), Resettled(requests, b, k), cutoff)
  {
  }

  lemma OlderFramesKeep(output: seq<Frame>, requests: seq<Request>, cutoff: Option<nat>, b: nat, k: nat)
    requires BatchFramesValid(output, requests, cutoff)
    ensures BatchFramesValid(output, Resettled(requests, b, k), cutoff)
  {
  }

  lemma MemberIsAssembled(requests: seq<Request>, works: map<nat, Work>, batches: map<nat, Assembly>, spawned: nat,
                          output: seq<Frame>, cutoff: Option<nat>, b: nat, o: nat)
    requires WorksValid(works, spawned, requests, batches) && Counted(works, b) == {}
    requires RequestsValid(requests, None, works, batches, output, false, cutoff)
    requires o < |requests| && requests[o].home == ToBatch(b) && !requests[o].fate.Sent?
    ensures cutoff.None? || o < cutoff.value ==> requests[o].fate.Assembled?
  {
    assert RequestValid(o, requests[o], None, works, batches, output, false, cutoff);
    assert forall w :: w in works ==> WorkValid(w, works[w], spawned, requests, batches) && w !in Counted(works, b);
  }

  lemma BatchFramesFlush(output: seq<Frame>, requests: seq<Request>, works: map<nat, Work>, batches: map<nat, Assembly>,
                         spawned: nat, batchesRead: nat, accepting: bool, cutoff: Option<nat>, b: nat)
    requires BatchFramesValid(output, requests, cutoff) && b in batches
    requires BatchesValid(batches, batchesRead, requests, accepting)
    requires WorksValid(works, spawned, requests, batches) && Counted(works, b) == {}
    requires batches[b].replies != [] ==> RequestsValid(requests, None, works, batches, output, false, cutoff)
    ensures var a := batches[b];
            var output' := if a.replies == [] then output else output + [BatchFrame(a, Render(a.replies))];
            BatchFramesValid(output', Resettled(requests, b, |output|), cutoff)
  {
    var a := batches[b];
    OlderFramesKeep(output, requests, cutoff, b, |output|);
    assert MembersValid(b, a, batchesRead, requests) && RepliesValid(b, a, requests, accepting);
    if a.replies != [] {
      forall o | a.base <= o < a.base + |a.requestIds|
        ensures cutoff.None? || o < cutoff.value ==> requests[o].fate.Assembled?
      {
        MemberIsAssembled(requests, works, batches, spawned, output, cutoff, b, o);
      }
      FlushedFrameIsComplete(b, a, batchesRead, requests, accepting, cutoff, |output|);
    }
  }

  lemma FlushKeepsWorks(s: State, b: nat)
    requires Valid(s) && s.building == Some(b) && !s.slack
    requires b in s.batches && s.batches[b].pending == 0
    ensures var t := Flushed(s, b);
            && WorksValid(t.works, t.spawned, t.requests, t.batches)
            && CountsValid(t.batches, t.works, t.building, t.slack)
  {
    CountsFlush(s.batches, s.works, b);
    WorksFlush(s.works, s.spawned, s.requests, s.batches, b, |s.output|);
  }

  lemma FlushKeepsOutput(s: State, b: nat)
    requires Valid(s) && s.building == Some(b) && !s.slack && s.hand.None?
    requires b in s.batches && s.batches[b].pending == 0 && (s.closed ==> s.batches[b].replies == [])
    ensures var t := Flushed(s, b);
            && SentValid(t.output, t.requests)
            && BatchFramesValid(t.output, t.requests, t.cutoff)
  {
    hide WorksValid, BatchesValid, CountsValid, RequestsValid, OwnersValid, SentValid, BatchFramesValid, OpenedValid, LifecycleValid,
         Counted, Resettled, Render;
    CountsFlush(s.batches, s.works, b);
    SentFlush(s.output, s.requests, s.batches, s.batchesRead, s.accepting, b);
    BatchFramesFlush(s.output, s.requests, s.works, s.batches, s.spawned, s.batchesRead, s.accepting, s.cutoff, b);
  }

  lemma FlushKeepsOwners(s: State, b: nat)
    requires Valid(s) && !s.scheduling && b in s.batches
    ensures var t := Flushed(s, b);
            t.accepting && !t.closed ==> OwnersValid(t.outstanding, t.owners, None, t.works, t.batches)
  {
    if s.accepting && !s.closed { OwnersFlush(s.outstanding, s.owners, s.works, s.batches, b); }
  }

  lemma FlushKeepsLifecycle(s: State, b: nat)
    requires Valid(s) && b in s.batches && Quiet(s.output) && !s.notified
    ensures var t := Flushed(s, b); LifecycleValid(t.output, t.accepting, t.notified)
  {
    assert RepliesValid(b, s.batches[b], s.requests, s.accepting);
    LifecycleSend(s.output, s.accepting, s.notified, BatchFrame(s.batches[b], Render(s.batches[b].replies)));
  }

  lemma FlushKeepsValid(s: State, b: nat)
    requires Valid(s) && s.building == Some(b) && !s.slack && s.hand.None? && !s.scheduling
    requires b in s.batches && s.batches[b].pending == 0 && (s.closed ==> s.batches[b].replies == [])
    requires Quiet(s.output) && !s.notified
    ensures Valid(Flushed(s, b))
  {
    FlushKeepsWorks(s, b);
    RequestsFlush(s.requests, s.works, s.batches, s.output, s.closed, s.cutoff, b);
    BatchesFlush(s.batches, s.batchesRead, s.requests, s.accepting, b, |s.output|);
    FlushKeepsOutput(s, b);
    FlushKeepsOwners(s, b);
    FlushKeepsLifecycle(s, b);
  }

  /** A batch that still waits for calls is put back. */
  lemma EndKeepsValid(s: State, b: nat)
    requires Valid(s) && s.building == Some(b) && !s.slack && !s.scheduling
    requires b in s.batches && s.batches[b].pending > 0
    ensures Valid(s.(building := None))
  {
  }
}

/** What a client of the session can rely on, derived from the invariant alone: these hold in every
    state that module SessionLoop can reach, whatever the order of results, messages and failures. */
module SessionGuarantees {
  import opened Json
  import opened Protocol
  import opened SessionState

  // ---------------------------------------------------------------- answers

  /** No request is answered twice, in one frame or in two, and the answer carries its id. */
  lemma {:induction false} AnsweredAtMostOnce(s: State, k: int, j: int, k': int, j': int)
    requires Valid(s) && HasReply(s.output, k, j) && HasReply(s.output, k', j')
    requires ReplyAt(s.output, k, j).origin.Some?
    ensures var o := ReplyAt(s.output, k, j).origin.value;
            o < |s.requests| && s.requests[o].id == ReplyAt(s.output, k, j).id
    ensures ReplyAt(s.output, k', j').origin == ReplyAt(s.output, k, j).origin ==> k' == k && j' == j
  {
  }

  /** The arrival numbers answered by the first `n` replies. */
  function Answered(replies: seq<Reply>, n: nat): set<nat>
    requires n <= |replies|
  {
    set j | 0 <= j < n && replies[j].origin.Some? :: replies[j].origin.value
  }

  ghost predicate DistinctOrigins(replies: seq<Reply>)
  {
    forall i, j :: 0 <= i < |replies| && 0 <= j < |replies| && replies[i].origin.Some? ==>
      (replies[i].origin == replies[j].origin ==> i == j)
  }

  lemma {:induction false} AnsweredCount(replies: seq<Reply>, n: nat)
    requires n <= |replies| && DistinctOrigins(replies)
    ensures |Answered(replies, n)| + Unowed(replies[..n]) == n
  {
    if n > 0 {
      AnsweredCount(replies, n - 1);
      assert replies[..n][..n - 1] == replies[..n - 1];
      if replies[n - 1].origin.Some? {
        assert replies[n - 1].origin.value !in Answered(replies, n - 1);
        assert Answered(replies, n) == Answered(replies, n - 1) + {replies[n - 1].origin.value};
      } else {
        assert Answered(replies, n) == Answered(replies, n - 1);
      }
    }
  }

  /** The numbers `from .. from + n`. */
  function Span(from: nat, n: nat): (r: set<nat>)
    ensures |r| == n
    ensures forall o :: o in r <==> from <= o < from + n
  {
    if n == 0 then {} else Span(from, n - 1) + {from + n - 1}
  }

  lemma FrameOriginsAreDistinct(s: State, k: nat)
    requires Valid(s) && k < |s.output| && s.output[k].BatchFrame?
    ensures DistinctOrigins(s.output[k].assembly.replies)
  {
    hide Valid;
    var replies := s.output[k].assembly.replies;
    forall i, j | 0 <= i < |replies| && 0 <= j < |replies| && replies[i].origin.Some? && replies[i].origin == replies[j].origin
      ensures i == j
    {
      AnsweredAtMostOnce(s, k, i, k, j);
    }
  }

  lemma FrameIsValid(s: State, k: nat)
    requires Valid(s) && k < |s.output| && s.output[k].BatchFrame?
    ensures BatchFrameValid(k, s.output[k].assembly, s.output[k].text, s.requests, s.cutoff)
    ensures RequestsValid(s.requests, s.hand, s.works, s.batches, s.output, s.closed, s.cutoff)
  {
  }

  lemma MemberIsAnswered(s: State, k: nat, o: nat)
    requires Valid(s) && k < |s.output| && s.output[k].BatchFrame? && InRange(s.output[k].assembly, o)
    requires s.cutoff.None? || o < s.cutoff.value
    ensures o in Answered(s.output[k].assembly.replies, |s.output[k].assembly.replies|)
  {
    FrameIsValid(s, k);
    hide Valid;
    assert s.requests[o].fate.Sent? && s.requests[o].fate.frame == k;
    assert RequestValid(o, s.requests[o], s.hand, s.works, s.batches, s.output, s.closed, s.cutoff);
    assert s.output[k].assembly.replies[s.requests[o].fate.slot].origin == Some(o);
  }

  /** A batch is answered by one non-empty array with exactly one reply per call with an id and one
      per invalid item, none for its notifications, in a text of exactly the reserved length. */
  lemma BatchIsAnsweredExactly(s: State, k: nat)
    requires Valid(s) && k < |s.output| && s.output[k].BatchFrame?
    requires s.cutoff.None? || s.output[k].assembly.base + |s.output[k].assembly.requestIds| <= s.cutoff.value
    ensures var a := s.output[k].assembly;
            && |a.replies| == |a.requestIds| + a.invalid
            && |a.replies| > 0
            && Answered(a.replies, |a.replies|) == Span(a.base, |a.requestIds|)
            && s.output[k].text == Render(a.replies) && |s.output[k].text| == ReservedBytes(a.replies)
  {
    FrameIsValid(s, k);
    FrameOriginsAreDistinct(s, k);
    var a := s.output[k].assembly;
    forall o | o in Span(a.base, |a.requestIds|) ensures o in Answered(a.replies, |a.replies|) {
      MemberIsAnswered(s, k, o);
    }
    hide Valid;
    assert Answered(a.replies, |a.replies|) == Span(a.base, |a.requestIds|);
    assert a.replies[..|a.replies|] == a.replies;
    AnsweredCount(a.replies, |a.replies|);
    RenderedLength(a.replies);
  }

  // ---------------------------------------------------------------- outstanding ids

  function SingleIds(works: map<nat, Work>): set<RpcId>
  {
    set w | w in works && works[w].destination == ToSingle && works[w].id.Some? :: works[w].id.value
  }

  ghost function BatchIds(batches: map<nat, Assembly>): set<RpcId>
  {
    set b, i | b in batches && 0 <= i < |batches[b].requestIds| :: batches[b].requestIds[i]
  }

  predicate HoldsSingleId(k: Work) { k.destination == ToSingle && k.id.Some? }

  ghost predicate DistinctSingles(works: map<nat, Work>)
  {
    forall v, w :: v in works && w in works && HoldsSingleId(works[v]) && HoldsSingleId(works[w]) ==>
      (works[v].id == works[w].id ==> v == w)
  }

  predicate HasMember(batches: map<nat, Assembly>, b: nat, i: int) { b in batches && 0 <= i < |batches[b].requestIds| }

  ghost predicate DistinctMembers(batches: map<nat, Assembly>)
  {
    forall b, i, c, j :: HasMember(batches, b, i) && HasMember(batches, c, j) ==>
      (batches[b].requestIds[i] == batches[c].requestIds[j] ==> b == c && i == j)
  }

  lemma OwnersAreKnown(s: State)
    requires Valid(s) && s.accepting && !s.closed && !s.scheduling
    ensures OwnersValid(s.outstanding, s.owners, None, s.works, s.batches)
  {
  }

  /** While an open session accepts calls, the outstanding ids are exactly those of single calls in
      flight and of unflushed batches, and no id is held twice. */
  lemma OutstandingPartition(s: State)
    requires Valid(s) && s.accepting && !s.closed && !s.scheduling
    ensures s.outstanding == SingleIds(s.works) + BatchIds(s.batches)
    ensures SingleIds(s.works) !! BatchIds(s.batches)
    ensures DistinctSingles(s.works) && DistinctMembers(s.batches)
  {
    OwnersAreKnown(s);
    hide Valid;
    forall id | id in s.outstanding ensures id in SingleIds(s.works) || id in BatchIds(s.batches) {
      assert OwnerValid(id, s.owners[id], None, s.works, s.batches);
      if s.owners[id].OwnedByBatch? {
        assert id == s.batches[s.owners[id].batch].requestIds[s.owners[id].slot];
      }
    }
    forall b, i, c, j | HasMember(s.batches, b, i) && HasMember(s.batches, c, j)
      ensures s.batches[b].requestIds[i] == s.batches[c].requestIds[j] ==> b == c && i == j
    {
      assert s.owners[s.batches[b].requestIds[i]] == OwnedByBatch(b, i);
      assert s.owners[s.batches[c].requestIds[j]] == OwnedByBatch(c, j);
    }
  }

  /** When nothing is in flight, every batch has left, no id is outstanding and every request that
      ever arrived has been answered. */
  lemma NothingIsForgotten(s: State)
    requires Valid(s) && Idle(s) && s.running && s.accepting && !s.closed && s.works == map[]
    ensures s.batches == map[] && s.outstanding == {}
    ensures forall o :: 0 <= o < |s.requests| ==>
              var q := s.requests[o];
              q.fate.Sent? && HasReply(s.output, q.fate.frame, q.fate.slot) &&
              ReplyAt(s.output, q.fate.frame, q.fate.slot).origin == Some(o)
  {
  }

  // ---------------------------------------------------------------- opening and closing

  /** Nothing but error replies and a final notice precedes the success of the opening call, and until then
      that call is the only request, the only one ever spawned, and no event task has started. */
  lemma OpeningComesFirst(s: State)
    requires Valid(s)
    ensures s.openedAt.None? ==>
              && !s.activated && |s.requests| <= 1 && s.spawned <= 1
              && forall k :: 0 <= k < |s.output| ==> s.output[k].NoticeFrame? || ErrorReply(s.output[k])
    ensures s.openedAt.Some? ==>
              && s.openedAt.value < |s.output| && OpeningReply(s.output[s.openedAt.value])
              && forall k :: 0 <= k < s.openedAt.value ==> ErrorReply(s.output[k])
  {
  }

  /** At most one notice is sent, it is the last frame, and if a reply carried the failure, the
      notice directly follows the frame of that reply and tells the same failure. */
  lemma NoticeIsLast(s: State, k: nat)
    requires Valid(s) && k < |s.output| && s.output[k].NoticeFrame?
    ensures k == |s.output| - 1 && s.notified && !s.accepting
    ensures forall j :: 0 <= j < |s.output| && FrameLifecycle(s.output[j]).Some? ==>
              j == k - 1 && FrameLifecycle(s.output[j]) == Some(s.output[k].failure)
    ensures Quiet(s.output[..k]) || (k > 0 && Quiet(s.output[..k - 1]))
  {
  }
}

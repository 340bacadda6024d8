/** The state a JSON-RPC session keeps between two suspension points of its select loop
    (backend/src/rpc/session.rs), the invariant that holds at every one of them, and one lemma
    per elementary change saying that the change keeps the invariant.

    The last block of fields of `State` is history: which request each reply answers, where that
    reply is now, and who holds each outstanding id. The loop never reads it. */
module SessionState {
  import opened Json
  import opened Protocol

  datatype LifecycleFailure = Revoked | AuthLookupUnavailable

  /** A serialized reply. `origin` is the arrival number of the request it answers; a reply to an
      item that is not a request (malformed text, an invalid batch member) has none. */
  datatype Reply = Reply(id: RpcId, text: string, success: bool,
                         lifecycle: Option<LifecycleFailure>, origin: Option<nat>)

  datatype Destination = ToSingle | ToBatch(batch: nat)

  /** `Handshake` is the class that the source calls Session. */
  datatype ExecutionClass = Read | Mutation | Handshake | Control

  /** What the loop needs to know of a method: the two that may activate the session are told
      apart by name, every other one by its entry in the method table, if it has one. */
  datatype Method = SessionOpen | CreateDevSession | Other(registered: Option<ExecutionClass>)
  {
    predicate Activates() { SessionOpen? || CreateDevSession? }

    function Class(): Option<ExecutionClass> { if Activates() then Some(Handshake) else registered }
  }

  /** A supervised call that has been spawned and whose result has not been consumed. */
  datatype Work = Work(id: Option<RpcId>, origin: Option<nat>, destination: Destination, target: Method,
                       closeAfterError: bool, activateAfterSuccess: bool, counts: bool)

  /** A batch being assembled. Its calls with an id are the arrivals
      `base .. base + |requestIds|`; `invalid` counts its invalid members. */
  datatype Assembly = Assembly(pending: nat, replies: seq<Reply>, requestIds: seq<RpcId>,
                               lifecycle: Option<LifecycleFailure>, closeAfterError: bool,
                               activateAfterSuccess: bool, base: nat, invalid: nat)

  datatype Frame =
    | SingleFrame(reply: Reply)
    | BatchFrame(assembly: Assembly, text: string)
    | EventFrame
    | NoticeFrame(failure: LifecycleFailure)

  /** Where the answer to a request is. */
  datatype Fate = InHand | InFlight(work: nat) | Assembled(slot: nat) | Sent(frame: nat, slot: nat) | Dropped
  datatype Request = Request(id: RpcId, home: Destination, fate: Fate)
  datatype Owner = OwnedByLoop | OwnedBySingle(work: nat) | OwnedByBatch(batch: nat, slot: nat)

  datatype State = State(
    closed: bool, accepting: bool, notified: bool, bound: bool, activated: bool,
    running: bool, first: bool, handshake: bool,
    batchesRead: nat, batches: map<nat, Assembly>, outstanding: set<RpcId>,
    works: map<nat, Work>, spawned: nat, output: seq<Frame>,
    requests: seq<Request>, owners: map<RpcId, Owner>,
    hand: Option<nat>, scheduling: bool, building: Option<nat>, slack: bool,
    cutoff: Option<nat>, openedAt: Option<nat>)

  // ---------------------------------------------------------------- batches

  function First(replies: seq<Reply>): Option<LifecycleFailure>
  {
    if replies == [] then None
    else if replies[0].lifecycle.Some? then replies[0].lifecycle
    else First(replies[1..])
  }

  /** Replies that answer no request. */
  function Unowed(replies: seq<Reply>): nat
  {
    if replies == [] then 0
    else Unowed(replies[..|replies| - 1]) + if replies[|replies| - 1].origin.None? then 1 else 0
  }

  function Commas(replies: seq<Reply>): string
  {
    if replies == [] then ""
    else if |replies| == 1 then replies[0].text
    else Commas(replies[..|replies| - 1]) + "," + replies[|replies| - 1].text
  }

  function Render(replies: seq<Reply>): string { "[" + Commas(replies) + "]" }

  function TotalText(replies: seq<Reply>): nat
  {
    if replies == [] then 0 else TotalText(replies[..|replies| - 1]) + |replies[|replies| - 1].text|
  }

  /** The budget reserved before a batch is rendered: brackets, texts and separators. */
  function ReservedBytes(replies: seq<Reply>): int
  {
    2 + TotalText(replies) + if |replies| == 0 then 0 else |replies| - 1
  }

  /** The reservation made before rendering is exactly the length of the rendered array. */
  lemma {:induction false} RenderedLength(replies: seq<Reply>)
    ensures |Render(replies)| == ReservedBytes(replies)
  {
    if |replies| == 0 {
    } else if |replies| == 1 {
      assert replies[..0] == [];
      assert TotalText(replies[..0]) == 0;
    } else {
      RenderedLength(replies[..|replies| - 1]);
    }
  }

  lemma {:induction false} FirstOfAppend(replies: seq<Reply>, r: Reply)
    ensures First(replies + [r]) == if First(replies).Some? then First(replies) else r.lifecycle
  {
    if replies == [] {
      assert [] + [r] == [r];
      assert [r][1..] == [];
    } else {
      assert (replies + [r])[1..] == replies[1..] + [r];
      FirstOfAppend(replies[1..], r);
    }
  }

  lemma UnowedOfAppend(replies: seq<Reply>, r: Reply)
    ensures Unowed(replies + [r]) == Unowed(replies) + if r.origin.None? then 1 else 0
  {
  }

  ghost function Counted(works: map<nat, Work>, b: nat): set<nat>
  {
    set w | w in works && works[w].counts && works[w].destination == ToBatch(b)
  }

  predicate InRange(a: Assembly, o: nat) { a.base <= o < a.base + |a.requestIds| }

  // ---------------------------------------------------------------- output

  function FrameLifecycle(f: Frame): Option<LifecycleFailure>
  {
    match f
    case SingleFrame(r) => r.lifecycle
    case BatchFrame(a, _) => First(a.replies)
    case _ => None
  }

  predicate HasReply(output: seq<Frame>, k: int, j: int)
  {
    0 <= k < |output| &&
    match output[k]
    case SingleFrame(_) => j == 0
    case BatchFrame(a, _) => 0 <= j < |a.replies|
    case _ => false
  }

  function ReplyAt(output: seq<Frame>, k: int, j: int): Reply
    requires HasReply(output, k, j)
  {
    if output[k].SingleFrame? then output[k].reply else output[k].assembly.replies[j]
  }

  /** The frames that the loop itself sends; published events are left out. */
  function Replies(output: seq<Frame>): seq<Frame>
  {
    if output == [] then []
    else Replies(output[..|output| - 1]) +
         if output[|output| - 1].EventFrame? then [] else [output[|output| - 1]]
  }

  /** No frame so far announces or carries a lifecycle failure. */
  predicate Quiet(output: seq<Frame>)
  {
    forall k :: 0 <= k < |output| ==> !output[k].NoticeFrame? && FrameLifecycle(output[k]).None?
  }

  // ---------------------------------------------------------------- invariant

  /** Every spawned call knows the request it answers, and a batch waits for its counted calls. */
  ghost predicate WorkValid(w: nat, k: Work, spawned: nat, requests: seq<Request>, batches: map<nat, Assembly>)
  {
    && w < spawned
    && (k.origin.Some? <==> k.id.Some?)
    && (k.counts <==> k.id.Some? || k.activateAfterSuccess)
    && (k.origin.Some? ==>
          && k.origin.value < |requests|
          && requests[k.origin.value] == Request(k.id.value, k.destination, InFlight(w)))
    && (k.destination.ToBatch? && k.counts ==> k.destination.batch in batches)
    && (k.destination.ToBatch? && k.origin.Some? ==>
          k.destination.batch in batches && InRange(batches[k.destination.batch], k.origin.value))
  }

  ghost predicate WorksValid(works: map<nat, Work>, spawned: nat, requests: seq<Request>, batches: map<nat, Assembly>)
  {
    forall w :: w in works ==> WorkValid(w, works[w], spawned, requests, batches)
  }

  /** The answer to request `o` is where its fate says. A request is dropped only when the
      transport is closed or when it arrived after the session was suspended. */
  ghost predicate RequestValid(o: nat, q: Request, hand: Option<nat>, works: map<nat, Work>,
                               batches: map<nat, Assembly>, output: seq<Frame>, closed: bool, cutoff: Option<nat>)
  {
    match q.fate
    case InHand => hand == Some(o)
    case InFlight(w) => w in works && works[w].origin == Some(o)
    case Assembled(i) =>
      && q.home.ToBatch? && q.home.batch in batches
      && i < |batches[q.home.batch].replies|
      && batches[q.home.batch].replies[i].origin == Some(o)
    case Sent(k, j) => HasReply(output, k, j) && ReplyAt(output, k, j).origin == Some(o)
    case Dropped => closed || (cutoff.Some? && cutoff.value <= o)
  }

  ghost predicate RequestsValid(requests: seq<Request>, hand: Option<nat>, works: map<nat, Work>,
                                batches: map<nat, Assembly>, output: seq<Frame>, closed: bool, cutoff: Option<nat>)
  {
    && (hand.Some? ==> hand.value < |requests| && requests[hand.value].fate == InHand)
    && forall o :: 0 <= o < |requests| ==> RequestValid(o, requests[o], hand, works, batches, output, closed, cutoff)
  }

  ghost predicate MembersValid(b: nat, a: Assembly, batchesRead: nat, requests: seq<Request>)
  {
    && b < batchesRead
    && a.base + |a.requestIds| <= |requests|
    && forall o :: a.base <= o < a.base + |a.requestIds| ==>
         requests[o].id == a.requestIds[o - a.base] && requests[o].home == ToBatch(b) && !requests[o].fate.Sent?
  }

  ghost predicate RepliesValid(b: nat, a: Assembly, requests: seq<Request>, accepting: bool)
  {
    && a.invalid == Unowed(a.replies)
    && a.lifecycle == First(a.replies)
    && (a.lifecycle.Some? ==> !accepting)
    && forall i :: 0 <= i < |a.replies| && a.replies[i].origin.Some? ==>
         var o := a.replies[i].origin.value;
         InRange(a, o) && o < |requests| && requests[o] == Request(a.replies[i].id, ToBatch(b), Assembled(i))
  }

  ghost predicate BatchesValid(batches: map<nat, Assembly>, batchesRead: nat, requests: seq<Request>, accepting: bool)
  {
    forall b :: b in batches ==>
      MembersValid(b, batches[b], batchesRead, requests) && RepliesValid(b, batches[b], requests, accepting)
  }

  /** `pending` is the number of counted calls in flight (plus one while the loop is scheduling
      such a call), and a batch that is not being built always waits for something. */
  ghost predicate CountsValid(batches: map<nat, Assembly>, works: map<nat, Work>, building: Option<nat>, slack: bool)
  {
    && (building.Some? ==> building.value in batches)
    && (slack ==> building.Some?)
    && forall b :: b in batches ==>
         && batches[b].pending == |Counted(works, b)| + (if slack && building == Some(b) then 1 else 0)
         && (building != Some(b) ==> batches[b].pending > 0)
  }

  ghost predicate OwnerValid(id: RpcId, owner: Owner, held: Option<RpcId>,
                             works: map<nat, Work>, batches: map<nat, Assembly>)
  {
    match owner
    case OwnedByLoop => held == Some(id)
    case OwnedBySingle(w) => w in works && works[w].destination == ToSingle && works[w].id == Some(id)
    case OwnedByBatch(b, i) => b in batches && i < |batches[b].requestIds| && batches[b].requestIds[i] == id
  }

  /** `outstanding` is the disjoint union of the ids of single calls in flight, the ids of the
      unflushed batches, and the id the loop is scheduling. */
  ghost predicate OwnersValid(outstanding: set<RpcId>, owners: map<RpcId, Owner>, held: Option<RpcId>,
                              works: map<nat, Work>, batches: map<nat, Assembly>)
  {
    && outstanding == owners.Keys
    && (forall id :: id in owners ==> OwnerValid(id, owners[id], held, works, batches))
    && (held.Some? ==> held.value in owners && owners[held.value] == OwnedByLoop)
    && (forall w :: w in works && works[w].destination == ToSingle && works[w].id.Some? ==>
          works[w].id.value in owners && owners[works[w].id.value] == OwnedBySingle(w))
    && (forall b, i :: b in batches && 0 <= i < |batches[b].requestIds| ==>
          batches[b].requestIds[i] in owners && owners[batches[b].requestIds[i]] == OwnedByBatch(b, i))
  }

  /** Every reply already queued is the recorded answer of its request. */
  ghost predicate SentValid(output: seq<Frame>, requests: seq<Request>)
  {
    forall k, j :: HasReply(output, k, j) && ReplyAt(output, k, j).origin.Some? ==>
      var o := ReplyAt(output, k, j).origin.value;
      o < |requests| && requests[o].fate == Sent(k, j) && requests[o].id == ReplyAt(output, k, j).id
  }

  /** A batch frame is a non-empty array of exactly the owed replies: one per call with an id
      (unless it arrived after the session was suspended) and one per invalid member. */
  ghost predicate BatchFrameValid(k: nat, a: Assembly, text: string, requests: seq<Request>, cutoff: Option<nat>)
  {
    && a.replies != []
    && text == Render(a.replies)
    && a.invalid == Unowed(a.replies)
    && a.base + |a.requestIds| <= |requests|
    && (forall j :: 0 <= j < |a.replies| && a.replies[j].origin.Some? ==> InRange(a, a.replies[j].origin.value))
    && (forall o :: a.base <= o < a.base + |a.requestIds| ==>
          && requests[o].id == a.requestIds[o - a.base]
          && (cutoff.None? || o < cutoff.value ==> requests[o].fate.Sent? && requests[o].fate.frame == k))
  }

  ghost predicate BatchFramesValid(output: seq<Frame>, requests: seq<Request>, cutoff: Option<nat>)
  {
    forall k :: 0 <= k < |output| && output[k].BatchFrame? ==>
      BatchFrameValid(k, output[k].assembly, output[k].text, requests, cutoff)
  }

  predicate Opening(k: Work)
  {
    && k.target.SessionOpen? && k.destination == ToSingle && k.closeAfterError && k.activateAfterSuccess
    && k.origin == Some(0)
    && k.id.Some? && !k.id.value.NullId?
  }

  predicate OpeningReply(f: Frame)
  {
    f.SingleFrame? && f.reply.success && f.reply.origin == Some(0)
  }

  predicate ErrorReply(f: Frame) { f.SingleFrame? && !f.reply.success }

  /** Until the reply to the opening `session.open` is queued at `openedAt` nothing else is
      scheduled, nothing is activated, and every frame is a single error reply. */
  ghost predicate UnopenedValid(s: State)
  {
    && (s.first ==> s.requests == [] && s.spawned == 0 && s.works == map[] && s.outstanding == {} &&
                    !s.handshake && s.openedAt.None?)
    && (s.openedAt.None? ==>
          && |s.requests| <= 1 && s.spawned <= |s.requests| && s.batches == map[]
          && s.building.None? && !s.activated
          && forall w :: w in s.works ==> Opening(s.works[w]))
  }

  ghost predicate OpenedValid(output: seq<Frame>, openedAt: Option<nat>)
  {
    && (openedAt.None? ==> forall k :: 0 <= k < |output| && !output[k].NoticeFrame? ==> ErrorReply(output[k]))
    && (openedAt.Some? ==>
          && openedAt.value < |output| && OpeningReply(output[openedAt.value])
          && forall k :: 0 <= k < openedAt.value ==> ErrorReply(output[k]))
  }

  /** A frame that carries a lifecycle failure is followed by nothing but its own notice, and a
      notice is followed by nothing at all. */
  ghost predicate LifecycleValid(output: seq<Frame>, accepting: bool, notified: bool)
  {
    && (notified ==> !accepting)
    && (forall k :: 0 <= k < |output| && output[k].NoticeFrame? ==> notified && k == |output| - 1)
    && (forall k :: 0 <= k < |output| && FrameLifecycle(output[k]).Some? ==>
          !accepting &&
          (k == |output| - 1 ||
           (k == |output| - 2 && output[|output| - 1] == NoticeFrame(FrameLifecycle(output[k]).value))))
  }

  ghost predicate CutoffValid(accepting: bool, cutoff: Option<nat>, arrivals: nat)
  {
    (accepting <==> cutoff.None?) && (cutoff.Some? ==> cutoff.value <= arrivals)
  }

  function Held(s: State): Option<RpcId>
  {
    if s.scheduling && s.hand.Some? && s.hand.value < |s.requests| then Some(s.requests[s.hand.value].id) else None
  }

  ghost predicate Valid(s: State)
  {
    && WorksValid(s.works, s.spawned, s.requests, s.batches)
    && RequestsValid(s.requests, s.hand, s.works, s.batches, s.output, s.closed, s.cutoff)
    && BatchesValid(s.batches, s.batchesRead, s.requests, s.accepting)
    && CountsValid(s.batches, s.works, s.building, s.slack)
    && (s.accepting && !s.closed ==> OwnersValid(s.outstanding, s.owners, Held(s), s.works, s.batches))
    && SentValid(s.output, s.requests)
    && BatchFramesValid(s.output, s.requests, s.cutoff)
    && UnopenedValid(s)
    && OpenedValid(s.output, s.openedAt)
    && LifecycleValid(s.output, s.accepting, s.notified)
    && CutoffValid(s.accepting, s.cutoff, |s.requests|)
  }

  /** What holds besides `Valid` each time the loop comes round, or has been left. */
  ghost predicate Idle(s: State)
  {
    && (s.running ==>
          && s.hand.None? && !s.scheduling && s.building.None? && !s.slack
          && Quiet(s.output) && !s.notified
          && (s.first || s.handshake <==> s.openedAt.None?))
    && (!s.running ==> Settled(s))
  }

  /** Once a frame has carried a lifecycle failure, the session has been notified and closed. */
  ghost predicate Settled(s: State) { !Quiet(s.output) || s.notified ==> s.notified && s.closed }
}

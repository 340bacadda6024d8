/** Frames and their byte leases (backend/src/rpc/session.rs). Every frame reserves its bytes from a
    budget shared by both directions before it is queued. Its text and its lease travel in two
    bounded queues, written one after the other under a pair lock by any number of senders and read
    by one receiver per direction. Senders may be cancelled wherever they wait; the receiver may be
    cancelled after it has taken a text and before it has taken the lease.

    Empty frames need no bytes and carry the empty lease, number 0. */
module Frames {
  import opened Json

  const TOTAL: nat := 64 * 1024 * 1024
  const MAX_FRAME_BYTES: nat := 50 * 1024 * 1024
  const CAPACITY: nat := 16

  datatype Direction = Inbound | Outbound
  datatype Frame = Frame(text: string, lease: nat)

  /** Who keeps a lease alive: a sender, a frame (queued, or being written or dispatched), or a
      dispatched call that shares the lease of the frame it came in. */
  datatype Holder = BySender(sender: nat) | ByFrame(direction: Direction, position: nat) | ByWorker(worker: nat)
  datatype Lease = Lease(size: nat, holders: set<Holder>)

  datatype Stage = Waiting | Locked | HalfReserved | Reserved | HalfPublished | Done
  datatype Send = Send(direction: Direction, text: string, lease: nat, stage: Stage)

  /** The two queues of one direction. `published` and `received` are history. */
  datatype Channel = Channel(
    lock: Option<nat>, texts: seq<string>, permits: seq<nat>, pending: Option<string>,
    published: seq<Frame>, received: seq<Frame>)

  datatype State = State(
    free: nat, leases: map<nat, Lease>, nextLease: nat, closed: bool,
    inbound: Channel, outbound: Channel, sends: map<nat, Send>)

  const EMPTY := Channel(None, [], [], None, [], [])
  const INITIAL := State(TOTAL, map[], 1, false, EMPTY, EMPTY, map[])

  datatype Action =
    | Start(sender: nat, direction: Direction, text: string)
    | TakeLock(sender: nat)
    | ReserveText(sender: nat)
    | ReservePermit(sender: nat)
    | PublishText(sender: nat)
    | PublishLease(sender: nat)
    | GiveUp(sender: nat)
    | TakeText(direction: Direction)
    | TakeLease(direction: Direction)
    | Retain(direction: Direction, position: nat, worker: nat)
    | DropFrame(direction: Direction, position: nat)
    | DropWorker(worker: nat, lease: nat)
    | Close

  // ---------------------------------------------------------------- budget

  /** The bytes of all live leases with a number below `n`. */
  function Live(leases: map<nat, Lease>, n: nat): nat
  {
    if n == 0 then 0 else Live(leases, n - 1) + if n - 1 in leases then leases[n - 1].size else 0
  }

  lemma {:induction false} LiveOfSame(before: map<nat, Lease>, after: map<nat, Lease>, n: nat)
    requires forall l :: l < n ==> (l in before <==> l in after) && (l in before ==> after[l].size == before[l].size)
    ensures Live(after, n) == Live(before, n)
  {
    if n > 0 { LiveOfSame(before, after, n - 1); }
  }

  lemma {:induction false} LiveOfRemoval(leases: map<nat, Lease>, l: nat, n: nat)
    requires l in leases && l < n
    ensures Live(leases - {l}, n) + leases[l].size == Live(leases, n)
  {
    if l == n - 1 {
      LiveOfSame(leases, leases - {l}, n - 1);
    } else {
      LiveOfRemoval(leases, l, n - 1);
    }
  }

  /** An oversized inbound frame takes the whole budget. */
  function Needed(text: string): nat { if |text| > MAX_FRAME_BYTES then TOTAL else |text| }

  /** The lease loses a holder; its bytes return with the last one. */
  function Release(s: State, l: nat, h: Holder): State
  {
    if l !in s.leases then s
    else if s.leases[l].holders <= {h} then s.(leases := s.leases - {l}, free := s.free + s.leases[l].size)
    else s.(leases := s.leases[l := s.leases[l].(holders := s.leases[l].holders - {h})])
  }

  function Hold(s: State, l: nat, h: Holder): State
  {
    if l !in s.leases then s
    else s.(leases := s.leases[l := s.leases[l].(holders := s.leases[l].holders + {h})])
  }

  // ---------------------------------------------------------------- steps

  function At(s: State, i: nat, stage: Stage): State
    requires i in s.sends
  {
    s.(sends := s.sends[i := s.sends[i].(stage := stage)])
  }

  function Of(s: State, d: Direction): Channel { if d.Inbound? then s.inbound else s.outbound }

  function With(s: State, d: Direction, c: Channel): State
  {
    if d.Inbound? then s.(inbound := c) else s.(outbound := c)
  }

  predicate HoldsLock(stage: Stage) { stage.Locked? || stage.HalfReserved? || stage.Reserved? || stage.HalfPublished? }

  /** A reservation that fails, and an outbound frame that is too large, close the transport. */
  function Starting(s: State, i: nat, d: Direction, text: string): State
  {
    if d.Outbound? && |text| > MAX_FRAME_BYTES then s.(closed := true)
    else if Needed(text) == 0 then s.(sends := s.sends[i := Send(d, text, 0, Waiting)])
    else if Needed(text) > s.free then s.(closed := true)
    else
      s.(free := s.free - Needed(text), nextLease := s.nextLease + 1,
         leases := s.leases[s.nextLease := Lease(Needed(text), {BySender(i)})],
         sends := s.sends[i := Send(d, text, s.nextLease, Waiting)])
  }

  /** The sender ends without publishing: its slots, its lock and its lease are given back. */
  function GivingUp(s: State, i: nat): State
    requires i in s.sends
  {
    var k := s.sends[i];
    var c := Of(s, k.direction);
    Release(With(At(s, i, Done), k.direction, c.(lock := if c.lock == Some(i) then None else c.lock)), k.lease, BySender(i))
  }

  function PublishingText(s: State, i: nat): State
    requires i in s.sends
  {
    var k := s.sends[i];
    var c := Of(s, k.direction);
    With(At(s, i, HalfPublished), k.direction, c.(texts := c.texts + [k.text], published := c.published + [Frame(k.text, k.lease)]))
  }

  /** The lease passes from the sender to the frame whose text it has just published. */
  function PublishingLease(s: State, i: nat): State
    requires i in s.sends && Of(s, s.sends[i].direction).published != []
  {
    var k := s.sends[i];
    var c := Of(s, k.direction);
    var handed := Release(Hold(s, k.lease, ByFrame(k.direction, |c.published| - 1)), k.lease, BySender(i));
    With(At(handed, i, Done), k.direction, c.(lock := None, permits := c.permits + [k.lease]))
  }

  /** The receiver pairs the text it retained with the next lease. */
  function TakingLease(s: State, d: Direction): State
    requires Of(s, d).pending.Some? && Of(s, d).permits != []
  {
    var c := Of(s, d);
    With(s, d, c.(pending := None, permits := c.permits[1..], received := c.received + [Frame(c.pending.value, c.permits[0])]))
  }

  predicate Is(s: State, i: nat, stage: Stage) { i in s.sends && s.sends[i].stage == stage }

  function Step(s: State, a: Action): State
  {
    match a
    case Start(i, d, text) => if i in s.sends || s.closed then s else Starting(s, i, d, text)
    case TakeLock(i) =>
      if Is(s, i, Waiting) && Of(s, s.sends[i].direction).lock.None? then
        var d := s.sends[i].direction;
        With(At(s, i, Locked), d, Of(s, d).(lock := Some(i)))
      else s
    case ReserveText(i) =>
      if Is(s, i, Locked) && |Of(s, s.sends[i].direction).texts| < CAPACITY then At(s, i, HalfReserved) else s
    case ReservePermit(i) =>
      if Is(s, i, HalfReserved) && |Of(s, s.sends[i].direction).permits| < CAPACITY then At(s, i, Reserved) else s
    case PublishText(i) =>
      if !Is(s, i, Reserved) then s else if s.closed then GivingUp(s, i) else PublishingText(s, i)
    case PublishLease(i) =>
      if Is(s, i, HalfPublished) && Of(s, s.sends[i].direction).published != [] then PublishingLease(s, i) else s
    case GiveUp(i) =>
      if Is(s, i, Waiting) || Is(s, i, Locked) || Is(s, i, HalfReserved) then GivingUp(s, i) else s
    case TakeText(d) =>
      var c := Of(s, d);
      if c.pending.None? && c.texts != [] then With(s, d, c.(pending := Some(c.texts[0]), texts := c.texts[1..])) else s
    case TakeLease(d) =>
      if Of(s, d).pending.Some? && Of(s, d).permits != [] then TakingLease(s, d) else s
    case Retain(d, p, w) =>
      if p < |Of(s, d).received| && Held(s.leases, Of(s, d).received[p].lease, ByFrame(d, p))
      then Hold(s, Of(s, d).received[p].lease, ByWorker(w)) else s
    case DropFrame(d, p) =>
      if p < |Of(s, d).received| then Release(s, Of(s, d).received[p].lease, ByFrame(d, p)) else s
    case DropWorker(w, l) => Release(s, l, ByWorker(w))
    case Close => s.(closed := true)
  }

  function Run(s: State, schedule: seq<Action>): State
  {
    if schedule == [] then s else Step(Run(s, schedule[..|schedule| - 1]), schedule[|schedule| - 1])
  }

  // ---------------------------------------------------------------- invariant

  predicate Held(leases: map<nat, Lease>, l: nat, h: Holder) { l in leases && h in leases[l].holders }

  /** The text is paid for: `h` holds a lease of exactly the bytes it needs. */
  predicate Covered(leases: map<nat, Lease>, text: string, l: nat, h: Holder)
  {
    if l == 0 then |text| == 0 else Held(leases, l, h) && leases[l].size == Needed(text)
  }

  ghost predicate BudgetValid(leases: map<nat, Lease>, nextLease: nat, free: nat)
  {
    && free + Live(leases, nextLease) == TOTAL && nextLease > 0
    && forall l :: l in leases ==> 0 < l < nextLease && leases[l].size > 0 && leases[l].holders != {}
  }

  predicate Active(k: Send) { !k.stage.Done? }

  ghost predicate SendsValid(sends: map<nat, Send>, leases: map<nat, Lease>)
  {
    && (forall i :: i in sends && Active(sends[i]) ==> Covered(leases, sends[i].text, sends[i].lease, BySender(i)))
    && (forall l, i :: Held(leases, l, BySender(i)) ==> i in sends && Active(sends[i]) && sends[i].lease == l)
  }

  /** How many of the published frames have their lease published as well. */
  function Paired(c: Channel, sends: map<nat, Send>): int
  {
    |c.published| - if c.lock.Some? && Half(sends, c.lock.value) then 1 else 0
  }

  predicate Half(sends: map<nat, Send>, i: nat) { i in sends && sends[i].stage.HalfPublished? }

  ghost predicate LockValid(d: Direction, c: Channel, sends: map<nat, Send>)
  {
    && (c.lock.Some? ==> c.lock.value in sends && sends[c.lock.value].direction == d)
    && (forall i :: i in sends && sends[i].direction == d ==> (HoldsLock(sends[i].stage) <==> c.lock == Some(i)))
    && (c.lock.Some? && Half(sends, c.lock.value) ==>
          var k := sends[c.lock.value];
          |c.received| < |c.published| && c.published[|c.published| - 1] == Frame(k.text, k.lease))
    && |c.texts| + (if c.lock.Some? && sends[c.lock.value].stage in {HalfReserved, Reserved} then 1 else 0) <= CAPACITY
    && |c.permits| + (if c.lock.Some? && sends[c.lock.value].stage in {Reserved, HalfPublished} then 1 else 0) <= CAPACITY
  }

  function Pending(c: Channel): nat { if c.pending.Some? then 1 else 0 }

  /** What has been received is a prefix of what was published; the retained text and the queued
      ones are the texts of the rest, and the queued leases are its leases, in order. */
  ghost predicate PairingValid(c: Channel, paired: int)
  {
    && c.received <= c.published
    && |c.published| - |c.received| == Pending(c) + |c.texts|
    && (c.pending.Some? ==> c.published[|c.received|].text == c.pending.value)
    && (forall k :: 0 <= k < |c.texts| ==> c.texts[k] == c.published[|c.received| + Pending(c) + k].text)
    && paired == |c.received| + |c.permits| && paired <= |c.published|
    && (forall k :: 0 <= k < |c.permits| ==> c.permits[k] == c.published[|c.received| + k].lease)
  }

  /** Every frame in the queues is covered, and whatever a frame holds is its own lease. */
  ghost predicate CoverValid(d: Direction, published: seq<Frame>, received: nat, paired: int, leases: map<nat, Lease>)
  {
    && (forall p :: received <= p < paired && p < |published| ==>
          Covered(leases, published[p].text, published[p].lease, ByFrame(d, p)))
    && (forall l: nat, p: nat :: Held(leases, l, ByFrame(d, p)) ==>
          p < |published| && p < paired && published[p].lease == l && leases[l].size == Needed(published[p].text))
  }

  ghost predicate ChannelValid(d: Direction, c: Channel, sends: map<nat, Send>, leases: map<nat, Lease>)
  {
    && LockValid(d, c, sends)
    && PairingValid(c, Paired(c, sends))
    && CoverValid(d, c.published, |c.received|, Paired(c, sends), leases)
  }

  ghost predicate Valid(s: State)
  {
    && BudgetValid(s.leases, s.nextLease, s.free)
    && SendsValid(s.sends, s.leases)
    && ChannelValid(Inbound, s.inbound, s.sends, s.leases)
    && ChannelValid(Outbound, s.outbound, s.sends, s.leases)
  }

  // ---------------------------------------------------------------- leases change hands

  /** One holder may leave and one may join; nobody else notices. */
  ghost predicate Changed(before: map<nat, Lease>, after: map<nat, Lease>, leaving: Option<(nat, Holder)>, joining: Option<(nat, Holder)>)
  {
    && (forall l: nat, h :: Held(after, l, h) <==> (Held(before, l, h) && leaving != Some((l, h))) || joining == Some((l, h)))
    && (forall l :: l in after && l in before ==> after[l].size == before[l].size)
  }

  lemma ReleaseKeepsBudget(s: State, l: nat, h: Holder)
    requires BudgetValid(s.leases, s.nextLease, s.free)
    ensures var t := Release(s, l, h);
            BudgetValid(t.leases, t.nextLease, t.free) && Changed(s.leases, t.leases, Some((l, h)), None)
  {
    if l in s.leases {
      if s.leases[l].holders <= {h} {
        LiveOfRemoval(s.leases, l, s.nextLease);
      } else {
        LiveOfSame(s.leases, Release(s, l, h).leases, s.nextLease);
        assert exists g :: g in s.leases[l].holders && g != h;
      }
    }
  }

  lemma HoldKeepsBudget(s: State, l: nat, h: Holder)
    requires BudgetValid(s.leases, s.nextLease, s.free)
    ensures var t := Hold(s, l, h);
            BudgetValid(t.leases, t.nextLease, t.free) &&
            Changed(s.leases, t.leases, None, if l in s.leases then Some((l, h)) else None)
  {
    if l in s.leases { LiveOfSame(s.leases, Hold(s, l, h).leases, s.nextLease); }
  }

  /** A new lease takes the bytes from the budget. */
  lemma ReserveKeepsBudget(leases: map<nat, Lease>, nextLease: nat, free: nat, size: nat, h: Holder)
    requires BudgetValid(leases, nextLease, free) && 0 < size <= free
    ensures BudgetValid(leases[nextLease := Lease(size, {h})], nextLease + 1, free - size)
    ensures nextLease !in leases
    ensures Changed(leases, leases[nextLease := Lease(size, {h})], None, Some((nextLease, h)))
  {
    var after := leases[nextLease := Lease(size, {h})];
    LiveOfSame(leases, after, nextLease);
    assert nextLease !in leases;
  }

  /** A change that concerns no frame of direction `d` leaves its frames covered. */
  lemma CoverKeeps(d: Direction, published: seq<Frame>, received: nat, paired: int, before: map<nat, Lease>, after: map<nat, Lease>,
                   leaving: Option<(nat, Holder)>, joining: Option<(nat, Holder)>)
    requires CoverValid(d, published, received, paired, before) && Changed(before, after, leaving, joining)
    requires leaving.Some? ==> !leaving.value.1.ByFrame? || leaving.value.1.direction != d || leaving.value.1.position < received
    requires joining.Some? ==> !joining.value.1.ByFrame? || joining.value.1.direction != d
    ensures CoverValid(d, published, received, paired, after) && CoverValid(d, published, received + 1, paired, after)
  {
  }

  // ---------------------------------------------------------------- the pair lock

  /** A sender that does not hold the lock of a channel changes nothing for it. */
  lemma LockKeeps(d: Direction, c: Channel, sends: map<nat, Send>, i: nat, k: Send)
    requires LockValid(d, c, sends) && c.lock != Some(i)
    requires k.direction != d || !HoldsLock(k.stage)
    requires i in sends ==> sends[i].direction == k.direction
    ensures LockValid(d, c, sends[i := k]) && Paired(c, sends[i := k]) == Paired(c, sends)
  {
  }

  lemma LockTaken(d: Direction, c: Channel, sends: map<nat, Send>, i: nat)
    requires LockValid(d, c, sends) && c.lock.None? && i in sends && sends[i].direction == d
    ensures var after := sends[i := sends[i].(stage := Locked)];
            LockValid(d, c.(lock := Some(i)), after) && Paired(c.(lock := Some(i)), after) == Paired(c, sends)
  {
  }

  lemma LockAdvances(d: Direction, c: Channel, sends: map<nat, Send>, i: nat)
    requires LockValid(d, c, sends) && i in sends && sends[i].direction == d
    ensures sends[i].stage.Locked? && |c.texts| < CAPACITY ==>
              var after := sends[i := sends[i].(stage := HalfReserved)];
              LockValid(d, c, after) && Paired(c, after) == Paired(c, sends)
    ensures sends[i].stage.HalfReserved? && |c.permits| < CAPACITY ==>
              var after := sends[i := sends[i].(stage := Reserved)];
              LockValid(d, c, after) && Paired(c, after) == Paired(c, sends)
  {
  }

  lemma LockGivenBack(d: Direction, c: Channel, sends: map<nat, Send>, i: nat)
    requires LockValid(d, c, sends) && i in sends && sends[i].direction == d && !sends[i].stage.HalfPublished?
    ensures var after := sends[i := sends[i].(stage := Done)];
            var c' := c.(lock := if c.lock == Some(i) then None else c.lock);
            LockValid(d, c', after) && Paired(c', after) == Paired(c, sends)
  {
  }

  lemma LockPublishesText(d: Direction, c: Channel, sends: map<nat, Send>, i: nat)
    requires LockValid(d, c, sends) && i in sends && sends[i].direction == d && sends[i].stage.Reserved?
    requires |c.received| <= |c.published|
    ensures var after := sends[i := sends[i].(stage := HalfPublished)];
            var c' := c.(texts := c.texts + [sends[i].text], published := c.published + [Frame(sends[i].text, sends[i].lease)]);
            LockValid(d, c', after) && Paired(c', after) == Paired(c, sends)
  {
  }

  lemma LockPublishesLease(d: Direction, c: Channel, sends: map<nat, Send>, i: nat)
    requires LockValid(d, c, sends) && i in sends && sends[i].direction == d && sends[i].stage.HalfPublished?
    ensures |c.received| < |c.published| && c.published[|c.published| - 1] == Frame(sends[i].text, sends[i].lease)
    ensures var after := sends[i := sends[i].(stage := Done)];
            var c' := c.(lock := None, permits := c.permits + [sends[i].lease]);
            LockValid(d, c', after) && Paired(c', after) == Paired(c, sends) + 1
  {
  }

  // ---------------------------------------------------------------- pairing

  lemma PairingIgnoresLock(c: Channel, paired: int, lock: Option<nat>)
    ensures PairingValid(c.(lock := lock), paired) <==> PairingValid(c, paired)
  {
  }

  lemma TextIsPaired(c: Channel, paired: int, f: Frame)
    requires PairingValid(c, paired)
    ensures PairingValid(c.(texts := c.texts + [f.text], published := c.published + [f]), paired)
  {
  }

  lemma LeaseIsPaired(c: Channel, paired: int, l: nat)
    requires PairingValid(c, paired) && paired < |c.published| && c.published[paired].lease == l
    ensures PairingValid(c.(lock := None, permits := c.permits + [l]), paired + 1)
  {
  }

  lemma TextIsRetained(c: Channel, paired: int)
    requires PairingValid(c, paired) && c.pending.None? && c.texts != []
    ensures PairingValid(c.(pending := Some(c.texts[0]), texts := c.texts[1..]), paired)
  {
  }

  /** The retained text meets its own lease. */
  lemma FrameIsReceived(c: Channel, paired: int)
    requires PairingValid(c, paired) && c.pending.Some? && c.permits != []
    ensures Frame(c.pending.value, c.permits[0]) == c.published[|c.received|]
    ensures PairingValid(c.(pending := None, permits := c.permits[1..],
                            received := c.received + [Frame(c.pending.value, c.permits[0])]), paired)
  {
  }

  // ---------------------------------------------------------------- every step keeps the invariant

  function Opposite(d: Direction): Direction { if d.Inbound? then Outbound else Inbound }

  /** The state of the senders and leases changes for one sender that has no part in direction `d`. */
  lemma OtherChannelKeeps(d: Direction, c: Channel, sends: map<nat, Send>, before: map<nat, Lease>, after: map<nat, Lease>,
                          i: nat, k: Send, leaving: Option<(nat, Holder)>, joining: Option<(nat, Holder)>)
    requires ChannelValid(d, c, sends, before) && Changed(before, after, leaving, joining)
    requires c.lock != Some(i) && (k.direction != d || !HoldsLock(k.stage))
    requires i in sends ==> sends[i].direction == k.direction
    requires leaving.Some? ==> !leaving.value.1.ByFrame? || leaving.value.1.direction != d
    requires joining.Some? ==> !joining.value.1.ByFrame? || joining.value.1.direction != d
    ensures ChannelValid(d, c, sends[i := k], after)
  {
    LockKeeps(d, c, sends, i, k);
    CoverKeeps(d, c.published, |c.received|, Paired(c, sends), before, after, leaving, joining);
  }

  lemma UnchangedLeases(leases: map<nat, Lease>)
    ensures Changed(leases, leases, None, None)
  {
  }

  lemma StartKeepsValid(s: State, i: nat, d: Direction, text: string)
    requires Valid(s) && i !in s.sends
    ensures Valid(Starting(s, i, d, text))
  {
    hide ChannelValid, BudgetValid;
    var t := Starting(s, i, d, text);
    if i in t.sends {
      var joining := if Needed(text) == 0 then None else Some((s.nextLease, BySender(i)));
      LocksAreSenders(s, i);
      if Needed(text) == 0 { UnchangedLeases(s.leases); }
      else { ReserveKeepsBudget(s.leases, s.nextLease, s.free, Needed(text), BySender(i)); }
      OtherChannelKeeps(Inbound, s.inbound, s.sends, s.leases, t.leases, i, t.sends[i], None, joining);
      OtherChannelKeeps(Outbound, s.outbound, s.sends, s.leases, t.leases, i, t.sends[i], None, joining);
      OwnLease(s.sends, s.leases, i);
      SendsKeep(s.sends, s.leases, t.leases, i, t.sends[i], None, joining);
    }
  }

  lemma LocksAreSenders(s: State, i: nat)
    requires Valid(s)
    ensures i !in s.sends ==> s.inbound.lock != Some(i) && s.outbound.lock != Some(i)
    ensures i in s.sends ==> Of(s, Opposite(s.sends[i].direction)).lock != Some(i)
    ensures s.nextLease > 0
  {
  }

  predicate Concerns(change: Option<(nat, Holder)>, i: nat) { change.Some? && change.value.1.BySender? && change.value.1.sender != i }

  /** Sender `i` becomes `k`; the leases of the other senders are not concerned. */
  lemma SendsKeep(sends: map<nat, Send>, before: map<nat, Lease>, after: map<nat, Lease>, i: nat, k: Send,
                  leaving: Option<(nat, Holder)>, joining: Option<(nat, Holder)>)
    requires SendsValid(sends, before) && Changed(before, after, leaving, joining)
    requires !Concerns(leaving, i) && !Concerns(joining, i)
    requires Active(k) ==> Covered(after, k.text, k.lease, BySender(i))
    requires forall l: nat :: Held(after, l, BySender(i)) ==> Active(k) && l == k.lease
    ensures SendsValid(sends[i := k], after)
  {
  }

  /** What the sender of `i` holds: nothing but its own lease. */
  lemma OwnLease(sends: map<nat, Send>, leases: map<nat, Lease>, i: nat)
    requires SendsValid(sends, leases)
    ensures forall l: nat :: Held(leases, l, BySender(i)) ==> i in sends && Active(sends[i]) && l == sends[i].lease
    ensures i in sends && Active(sends[i]) ==> Covered(leases, sends[i].text, sends[i].lease, BySender(i))
  {
  }

  /** A sender advances while it keeps its lease; only its own channel may change with it. */
  lemma AdvanceKeepsValid(s: State, i: nat, stage: Stage, c: Channel)
    requires Valid(s) && i in s.sends && Active(s.sends[i]) && !stage.Done?
    requires var d := s.sends[i].direction;
             ChannelValid(d, c, s.sends[i := s.sends[i].(stage := stage)], s.leases)
    ensures Valid(With(At(s, i, stage), s.sends[i].direction, c))
  {
    hide ChannelValid, BudgetValid, SendsValid, Changed;
    var k := s.sends[i].(stage := stage);
    var other := Opposite(k.direction);
    LocksAreSenders(s, i);
    UnchangedLeases(s.leases);
    OwnLease(s.sends, s.leases, i);
    SendsKeep(s.sends, s.leases, s.leases, i, k, None, None);
    OtherChannelKeeps(other, Of(s, other), s.sends, s.leases, s.leases, i, k, None, None);
  }

  lemma TakeLockKeepsValid(s: State, i: nat)
    requires Valid(s)
    ensures Valid(Step(s, TakeLock(i)))
  {
    if Is(s, i, Waiting) && Of(s, s.sends[i].direction).lock.None? {
      var d := s.sends[i].direction;
      LockTaken(d, Of(s, d), s.sends, i);
      PairingIgnoresLock(Of(s, d), Paired(Of(s, d), s.sends), Some(i));
      hide LockValid, PairingValid, CoverValid, SendsValid, BudgetValid, Paired;
      AdvanceKeepsValid(s, i, Locked, Of(s, d).(lock := Some(i)));
    }
  }

  lemma ReserveKeepsValid(s: State, i: nat)
    requires Valid(s)
    ensures Valid(Step(s, ReserveText(i))) && Valid(Step(s, ReservePermit(i)))
  {
    if i in s.sends {
      var d := s.sends[i].direction;
      LockAdvances(d, Of(s, d), s.sends, i);
      if s.sends[i].stage.Locked? && |Of(s, d).texts| < CAPACITY {
        AdvanceKeepsValid(s, i, HalfReserved, Of(s, d));
      }
      if s.sends[i].stage.HalfReserved? && |Of(s, d).permits| < CAPACITY {
        AdvanceKeepsValid(s, i, Reserved, Of(s, d));
      }
    }
  }

  lemma PublishTextKeepsValid(s: State, i: nat)
    requires Valid(s) && Is(s, i, Reserved)
    ensures Valid(PublishingText(s, i))
  {
    var k := s.sends[i];
    var c := Of(s, k.direction);
    var c' := c.(texts := c.texts + [k.text], published := c.published + [Frame(k.text, k.lease)]);
    LockPublishesText(k.direction, c, s.sends, i);
    TextIsPaired(c, Paired(c, s.sends), Frame(k.text, k.lease));
    CoverOfNewText(k.direction, c.published, |c.received|, Paired(c, s.sends), s.leases, Frame(k.text, k.lease));
    hide LockValid, PairingValid, CoverValid, BudgetValid, SendsValid, Paired;
    AdvanceKeepsValid(s, i, HalfPublished, c');
  }

  lemma CoverOfNewText(d: Direction, published: seq<Frame>, received: nat, paired: int, leases: map<nat, Lease>, f: Frame)
    requires CoverValid(d, published, received, paired, leases) && paired <= |published|
    ensures CoverValid(d, published + [f], received, paired, leases)
  {
  }

  lemma ReleaseCommutes(s: State, i: nat, d: Direction, c: Channel, l: nat, h: Holder)
    requires i in s.sends
    ensures Release(With(At(s, i, Done), d, c), l, h) == With(At(Release(s, l, h), i, Done), d, c)
  {
  }

  /** A sender that ends gives back its lease; its channel `c` may change with it. */
  lemma EndKeepsValid(s: State, i: nat, c: Channel)
    requires Valid(s) && i in s.sends && Active(s.sends[i])
    requires var d := s.sends[i].direction;
             && c.published == Of(s, d).published && c.received == Of(s, d).received
             && LockValid(d, c, s.sends[i := s.sends[i].(stage := Done)])
             && Paired(c, s.sends[i := s.sends[i].(stage := Done)]) == Paired(Of(s, d), s.sends)
             && PairingValid(c, Paired(Of(s, d), s.sends))
    ensures Valid(Release(With(At(s, i, Done), s.sends[i].direction, c), s.sends[i].lease, BySender(i)))
  {
    var k := s.sends[i];
    var other := Opposite(k.direction);
    var leaving := Some((k.lease, BySender(i)));
    var after := Release(s, k.lease, BySender(i)).leases;
    LocksAreSenders(s, i);
    ReleaseKeepsBudget(s, k.lease, BySender(i));
    ReleaseCommutes(s, i, k.direction, c, k.lease, BySender(i));
    OwnLease(s.sends, s.leases, i);
    hide LockValid, PairingValid, BudgetValid, CoverValid, Release, Paired, SendsValid;
    SendsKeep(s.sends, s.leases, after, i, k.(stage := Done), leaving, None);
    CoverKeeps(k.direction, c.published, |c.received|, Paired(Of(s, k.direction), s.sends), s.leases, after, leaving, None);
    OtherChannelKeeps(other, Of(s, other), s.sends, s.leases, after, i, k.(stage := Done), leaving, None);
  }

  lemma GiveUpKeepsValid(s: State, i: nat)
    requires Valid(s) && i in s.sends && Active(s.sends[i]) && !s.sends[i].stage.HalfPublished?
    ensures Valid(GivingUp(s, i))
  {
    var d := s.sends[i].direction;
    var c := Of(s, d);
    LockGivenBack(d, c, s.sends, i);
    EndKeepsValid(s, i, c.(lock := if c.lock == Some(i) then None else c.lock));
  }

  /** A change of leases that concerns no sender and no frame still queued. */
  lemma LeasesKeepValid(s: State, t: State, leaving: Option<(nat, Holder)>, joining: Option<(nat, Holder)>)
    requires Valid(s) && t == s.(leases := t.leases, free := t.free)
    requires BudgetValid(t.leases, t.nextLease, t.free) && Changed(s.leases, t.leases, leaving, joining)
    requires leaving.Some? ==> !leaving.value.1.BySender?
    requires leaving.Some? && leaving.value.1.ByFrame? ==> leaving.value.1.position < |Of(s, leaving.value.1.direction).received|
    requires joining.Some? ==> joining.value.1.ByWorker?
    ensures Valid(t)
  {
    CoverKeeps(Inbound, s.inbound.published, |s.inbound.received|, Paired(s.inbound, s.sends), s.leases, t.leases, leaving, joining);
    CoverKeeps(Outbound, s.outbound.published, |s.outbound.received|, Paired(s.outbound, s.sends), s.leases, t.leases, leaving, joining);
    hide LockValid, PairingValid, BudgetValid, CoverValid;
    forall i | i in s.sends && Active(s.sends[i]) ensures Covered(t.leases, s.sends[i].text, s.sends[i].lease, BySender(i)) {
      assert Covered(s.leases, s.sends[i].text, s.sends[i].lease, BySender(i));
      assert Held(s.leases, s.sends[i].lease, BySender(i)) ==> Held(t.leases, s.sends[i].lease, BySender(i));
    }
    forall l: nat, i: nat | Held(t.leases, l, BySender(i)) ensures i in s.sends && Active(s.sends[i]) && s.sends[i].lease == l {
      assert Held(s.leases, l, BySender(i));
    }
  }

  /** The newest frame, whose text was published first, now holds the lease of its sender. */
  lemma CoverOfNewLease(d: Direction, published: seq<Frame>, received: nat, paired: nat, before: map<nat, Lease>, after: map<nat, Lease>, i: nat)
    requires CoverValid(d, published, received, paired, before) && paired + 1 == |published|
    requires var l := published[paired].lease;
             && Covered(before, published[paired].text, l, BySender(i))
             && Changed(before, after, None, if l in before then Some((l, ByFrame(d, paired))) else None)
             && 0 !in before
    ensures CoverValid(d, published, received, paired + 1, after)
  {
  }

  /** The leases while the lease of sender `i` is shared with its frame, and afterwards. */
  lemma HandingLeases(s: State, i: nat)
    requires Valid(s) && Is(s, i, HalfPublished) && Of(s, s.sends[i].direction).published != []
    ensures var k := s.sends[i]; var p := |Of(s, k.direction).published| - 1;
            var m := Hold(s, k.lease, ByFrame(k.direction, p));
            var t := Release(m, k.lease, BySender(i));
            && BudgetValid(t.leases, t.nextLease, t.free)
            && Changed(s.leases, m.leases, None, if k.lease in s.leases then Some((k.lease, ByFrame(k.direction, p))) else None)
            && Changed(m.leases, t.leases, Some((k.lease, BySender(i))), None)
            && SendsValid(s.sends[i := k.(stage := Done)], t.leases)
  {
    var k := s.sends[i];
    var p := |Of(s, k.direction).published| - 1;
    var m := Hold(s, k.lease, ByFrame(k.direction, p));
    HoldKeepsBudget(s, k.lease, ByFrame(k.direction, p));
    ReleaseKeepsBudget(m, k.lease, BySender(i));
    OwnLease(s.sends, s.leases, i);
    hide LockValid, PairingValid, BudgetValid, CoverValid, Hold, Release, SendsValid;
    assert s.sends[i := k] == s.sends;
    SendsKeep(s.sends, s.leases, m.leases, i, k, None, if k.lease in s.leases then Some((k.lease, ByFrame(k.direction, p))) else None);
    SendsKeep(s.sends, m.leases, Release(m, k.lease, BySender(i)).leases, i, k.(stage := Done), Some((k.lease, BySender(i))), None);
  }

  lemma HandingOtherChannel(s: State, i: nat, m: map<nat, Lease>, t: map<nat, Lease>, leaving: Option<(nat, Holder)>, joining: Option<(nat, Holder)>)
    requires Valid(s) && i in s.sends && s.sends[i].stage.HalfPublished?
    requires Changed(s.leases, m, None, joining) && Changed(m, t, leaving, None)
    requires leaving.Some? ==> leaving.value.1.BySender?
    requires joining.Some? ==> joining.value.1.ByFrame? && joining.value.1.direction == s.sends[i].direction
    ensures var other := Opposite(s.sends[i].direction);
            ChannelValid(other, Of(s, other), s.sends[i := s.sends[i].(stage := Done)], t)
  {
    var k := s.sends[i];
    var other := Opposite(k.direction);
    LocksAreSenders(s, i);
    hide LockValid, PairingValid, BudgetValid, CoverValid, SendsValid, Changed, Paired;
    OtherChannelKeeps(other, Of(s, other), s.sends, s.leases, m, i, k, None, joining);
    assert s.sends[i := k] == s.sends;
    OtherChannelKeeps(other, Of(s, other), s.sends, m, t, i, k.(stage := Done), leaving, None);
  }

  /** The sender that published its text publishes the lease and unlocks; its own hold is given up. */
  lemma ChannelHands(d: Direction, c: Channel, sends: map<nat, Send>, i: nat,
                     leases: map<nat, Lease>, m: map<nat, Lease>, t: map<nat, Lease>, leaving: Option<(nat, Holder)>)
    requires ChannelValid(d, c, sends, leases) && SendsValid(sends, leases) && 0 !in leases && c.published != []
    requires i in sends && sends[i].direction == d && sends[i].stage.HalfPublished?
    requires Changed(leases, m, None, if sends[i].lease in leases then Some((sends[i].lease, ByFrame(d, |c.published| - 1))) else None)
    requires Changed(m, t, leaving, None) && (leaving.Some? ==> leaving.value.1.BySender?)
    ensures ChannelValid(d, c.(lock := None, permits := c.permits + [sends[i].lease]), sends[i := sends[i].(stage := Done)], t)
  {
    var paired := Paired(c, sends);
    assert paired == |c.published| - 1;
    hide LockValid, PairingValid, CoverValid, SendsValid, Changed, Paired;
    LockPublishesLease(d, c, sends, i);
    LeaseIsPaired(c, paired, sends[i].lease);
    OwnLease(sends, leases, i);
    CoverOfNewLease(d, c.published, |c.received|, paired, leases, m, i);
    CoverKeeps(d, c.published, |c.received|, paired + 1, m, t, leaving, None);
  }

  lemma HandingOwnChannel(s: State, i: nat, m: map<nat, Lease>, t: map<nat, Lease>, leaving: Option<(nat, Holder)>)
    requires Valid(s) && i in s.sends && s.sends[i].stage.HalfPublished?
    requires var d := s.sends[i].direction; var c := Of(s, d);
             && c.published != []
             && Changed(s.leases, m, None, if s.sends[i].lease in s.leases then Some((s.sends[i].lease, ByFrame(d, |c.published| - 1))) else None)
             && Changed(m, t, leaving, None)
    requires leaving.Some? ==> leaving.value.1.BySender?
    ensures var d := s.sends[i].direction; var c := Of(s, d);
            ChannelValid(d, c.(lock := None, permits := c.permits + [s.sends[i].lease]), s.sends[i := s.sends[i].(stage := Done)], t)
  {
    assert 0 !in s.leases;
    hide BudgetValid, SendsValid, ChannelValid, Changed;
    var d := s.sends[i].direction;
    ChannelHands(d, Of(s, d), s.sends, i, s.leases, m, t, leaving);
  }

  lemma PublishLeaseKeepsValid(s: State, i: nat)
    requires Valid(s) && Is(s, i, HalfPublished) && Of(s, s.sends[i].direction).published != []
    ensures Valid(PublishingLease(s, i))
  {
    hide LockValid, PairingValid, BudgetValid, CoverValid, SendsValid, Changed, ChannelValid;
    var k := s.sends[i];
    var m := Hold(s, k.lease, ByFrame(k.direction, |Of(s, k.direction).published| - 1));
    var t := Release(m, k.lease, BySender(i));
    HandingLeases(s, i);
    HandingOwnChannel(s, i, m.leases, t.leases, Some((k.lease, BySender(i))));
    HandingOtherChannel(s, i, m.leases, t.leases, Some((k.lease, BySender(i))),
                        if k.lease in s.leases then Some((k.lease, ByFrame(k.direction, |Of(s, k.direction).published| - 1))) else None);
  }

  lemma CoverOfReceived(d: Direction, published: seq<Frame>, received: nat, paired: int, leases: map<nat, Lease>)
    requires CoverValid(d, published, received, paired, leases)
    ensures CoverValid(d, published, received + 1, paired, leases)
  {
    UnchangedLeases(leases);
    CoverKeeps(d, published, received, paired, leases, leases, None, None);
  }

  /** The receiver changes nothing but its own channel. */
  lemma ReceiveKeepsChannel(d: Direction, c: Channel, sends: map<nat, Send>, leases: map<nat, Lease>)
    requires ChannelValid(d, c, sends, leases)
    ensures c.pending.None? && c.texts != [] ==>
              ChannelValid(d, c.(pending := Some(c.texts[0]), texts := c.texts[1..]), sends, leases)
    ensures c.pending.Some? && c.permits != [] ==>
              ChannelValid(d, c.(pending := None, permits := c.permits[1..],
                                 received := c.received + [Frame(c.pending.value, c.permits[0])]), sends, leases)
  {
    hide CoverValid;
    CoverOfReceived(d, c.published, |c.received|, Paired(c, sends), leases);
    if c.pending.None? && c.texts != [] {
      TextIsRetained(c, Paired(c, sends));
    }
    if c.pending.Some? && c.permits != [] {
      FrameIsReceived(c, Paired(c, sends));
    }
  }

  lemma ReceiveKeepsValid(s: State, d: Direction)
    requires Valid(s)
    ensures Valid(Step(s, TakeText(d))) && Valid(Step(s, TakeLease(d)))
  {
    hide ChannelValid, BudgetValid, SendsValid;
    ReceiveKeepsChannel(d, Of(s, d), s.sends, s.leases);
  }

  lemma ShareKeepsValid(s: State, d: Direction, p: nat, w: nat, l: nat)
    requires Valid(s)
    ensures Valid(Step(s, Retain(d, p, w))) && Valid(Step(s, DropFrame(d, p))) && Valid(Step(s, DropWorker(w, l)))
  {
    hide Valid;
    LeaseOfWorker(s, w, l);
    if p < |Of(s, d).received| {
      FrameLease(s, d, p, w);
    }
  }

  lemma LeaseOfWorker(s: State, w: nat, l: nat)
    requires Valid(s)
    ensures Valid(Release(s, l, ByWorker(w))) && Valid(Hold(s, l, ByWorker(w)))
  {
    ReleaseKeepsBudget(s, l, ByWorker(w));
    HoldKeepsBudget(s, l, ByWorker(w));
    hide Valid, Changed, BudgetValid;
    LeasesKeepValid(s, Release(s, l, ByWorker(w)), Some((l, ByWorker(w))), None);
    LeasesKeepValid(s, Hold(s, l, ByWorker(w)), None, if l in s.leases then Some((l, ByWorker(w))) else None);
  }

  lemma FrameLease(s: State, d: Direction, p: nat, w: nat)
    requires Valid(s) && p < |Of(s, d).received|
    ensures Valid(Release(s, Of(s, d).received[p].lease, ByFrame(d, p))) && Valid(Hold(s, Of(s, d).received[p].lease, ByWorker(w)))
  {
    var l := Of(s, d).received[p].lease;
    LeaseOfWorker(s, w, l);
    ReleaseKeepsBudget(s, l, ByFrame(d, p));
    hide Valid, Changed, BudgetValid;
    LeasesKeepValid(s, Release(s, l, ByFrame(d, p)), Some((l, ByFrame(d, p))), None);
  }

  lemma StepKeepsValid(s: State, a: Action)
    requires Valid(s)
    ensures Valid(Step(s, a))
  {
    match a
    case Start(i, d, text) => if i !in s.sends { StartKeepsValid(s, i, d, text); }
    case TakeLock(i) => TakeLockKeepsValid(s, i);
    case ReserveText(i) => ReserveKeepsValid(s, i);
    case ReservePermit(i) => ReserveKeepsValid(s, i);
    case PublishText(i) => if Is(s, i, Reserved) { PublishTextKeepsValid(s, i); GiveUpKeepsValid(s, i); }
    case PublishLease(i) =>
      if Is(s, i, HalfPublished) && Of(s, s.sends[i].direction).published != [] { PublishLeaseKeepsValid(s, i); }
    case GiveUp(i) =>
      if Is(s, i, Waiting) || Is(s, i, Locked) || Is(s, i, HalfReserved) { GiveUpKeepsValid(s, i); }
    case TakeText(d) => ReceiveKeepsValid(s, d);
    case TakeLease(d) => ReceiveKeepsValid(s, d);
    case Retain(d, p, w) => ShareKeepsValid(s, d, p, w, 0);
    case DropFrame(d, p) => ShareKeepsValid(s, d, p, 0, 0);
    case DropWorker(w, l) => ShareKeepsValid(s, Inbound, 0, w, l);
    case Close =>
  }

  lemma InitialIsValid()
    ensures Valid(INITIAL)
  {
    assert forall l: nat, h :: !Held(map[], l, h);
    assert Live(map[], 1) == 0;
  }

  lemma {:induction false} RunIsValid(schedule: seq<Action>)
    ensures Valid(Run(INITIAL, schedule))
  {
    if schedule != [] {
      RunIsValid(schedule[..|schedule| - 1]);
      StepKeepsValid(Run(INITIAL, schedule[..|schedule| - 1]), schedule[|schedule| - 1]);
    } else {
      InitialIsValid();
    }
  }

  // ---------------------------------------------------------------- what every run guarantees

  /** Free bytes and the bytes of live leases, shared ones counted once, always make up the budget. */
  lemma BytesAreConserved(schedule: seq<Action>)
    ensures var s := Run(INITIAL, schedule); s.free + Live(s.leases, s.nextLease) == TOTAL
    ensures forall l :: l in Run(INITIAL, schedule).leases ==> l < Run(INITIAL, schedule).nextLease
  {
    RunIsValid(schedule);
  }

  /** The frames received are the frames published, in order, each with the lease it was sent with,
      for any senders and any cancellation. */
  lemma ReceivedInOrder(schedule: seq<Action>, d: Direction)
    ensures Of(Run(INITIAL, schedule), d).received <= Of(Run(INITIAL, schedule), d).published
  {
    RunIsValid(schedule);
  }

  /** A receiver that has retained a text finds the lease of that very text in the other queue, or
      the one sender that is about to put it there. */
  lemma RetainedTextHasItsLease(schedule: seq<Action>, d: Direction)
    requires Of(Run(INITIAL, schedule), d).pending.Some?
    ensures var s := Run(INITIAL, schedule); var c := Of(s, d);
            && |c.received| < |c.published|
            && c.pending == Some(c.published[|c.received|].text)
            && if c.permits != [] then c.permits[0] == c.published[|c.received|].lease
               else c.lock.Some? && Half(s.sends, c.lock.value) &&
                    s.sends[c.lock.value].lease == c.published[|c.received|].lease
  {
    RunIsValid(schedule);
    hide Run;
    var s := Run(INITIAL, schedule);
    assert ChannelValid(d, Of(s, d), s.sends, s.leases);
  }

  // ---------------------------------------------------------------- whose lease is whose

  predicate Unpublished(k: Send) { k.stage.Waiting? || k.stage.Locked? || k.stage.HalfReserved? || k.stage.Reserved? }

  predicate IsPublished(s: State, d: Direction, p: nat) { p < |Of(s, d).published| }

  function LeaseOf(s: State, d: Direction, p: nat): nat
    requires IsPublished(s, d, p)
  {
    Of(s, d).published[p].lease
  }

  ghost predicate SendsDistinct(sends: map<nat, Send>, next: nat)
  {
    && (forall i :: i in sends ==> sends[i].lease < next)
    && (forall i, j :: i in sends && j in sends && i != j && sends[i].lease != 0 ==> sends[i].lease != sends[j].lease)
  }

  ghost predicate FramesDistinct(published: seq<Frame>, next: nat)
  {
    && (forall p :: 0 <= p < |published| ==> published[p].lease < next)
    && (forall p, q :: 0 <= p < q < |published| && published[p].lease != 0 ==> published[p].lease != published[q].lease)
  }

  ghost predicate DirectionsApart(a: seq<Frame>, b: seq<Frame>)
  {
    forall p, q :: 0 <= p < |a| && 0 <= q < |b| && a[p].lease != 0 ==> a[p].lease != b[q].lease
  }

  ghost predicate SendsApart(published: seq<Frame>, sends: map<nat, Send>)
  {
    forall p, i :: 0 <= p < |published| && i in sends && Unpublished(sends[i]) && sends[i].lease != 0 ==> published[p].lease != sends[i].lease
  }

  /** No two frames share a lease, and a frame shares its lease with nobody but its own sender. */
  ghost predicate Distinct(s: State)
  {
    && SendsDistinct(s.sends, s.nextLease)
    && FramesDistinct(s.inbound.published, s.nextLease) && FramesDistinct(s.outbound.published, s.nextLease)
    && DirectionsApart(s.inbound.published, s.outbound.published)
    && SendsApart(s.inbound.published, s.sends) && SendsApart(s.outbound.published, s.sends)
  }

  lemma DifferentFrames(s: State, d: Direction, p: nat, e: Direction, q: nat)
    requires Distinct(s) && IsPublished(s, d, p) && IsPublished(s, e, q) && LeaseOf(s, d, p) != 0
    ensures LeaseOf(s, d, p) == LeaseOf(s, e, q) ==> d == e && p == q
    ensures LeaseOf(s, d, p) < s.nextLease
  {
  }

  /** The oldest half of a publication: the text of sender `i` has been appended. */
  lemma AppendIsDistinct(published: seq<Frame>, other: seq<Frame>, sends: map<nat, Send>, next: nat, i: nat)
    requires SendsDistinct(sends, next) && FramesDistinct(published, next) && DirectionsApart(published, other)
    requires SendsApart(published, sends) && SendsApart(other, sends) && i in sends && Unpublished(sends[i])
    ensures var after := published + [Frame(sends[i].text, sends[i].lease)];
            var sends' := sends[i := sends[i].(stage := HalfPublished)];
            && SendsDistinct(sends', next) && FramesDistinct(after, next) && DirectionsApart(after, other) && DirectionsApart(other, after)
            && SendsApart(after, sends') && SendsApart(other, sends')
  {
  }

  /** The lease of a frame has the size the frame needs, and dispatched calls share only leases of
      frames that have been received. */
  ghost predicate Sized(s: State)
  {
    && (forall d, p: nat :: IsPublished(s, d, p) && LeaseOf(s, d, p) in s.leases ==>
          s.leases[LeaseOf(s, d, p)].size == Needed(Of(s, d).published[p].text))
    && (forall d, p: nat :: IsPublished(s, d, p) && LeaseOf(s, d, p) == 0 ==> |Of(s, d).published[p].text| == 0)
    && (forall l: nat, w: nat :: Held(s.leases, l, ByWorker(w)) ==> SomeReceived(s, l))
  }

  ghost predicate SomeReceived(s: State, l: nat)
  {
    exists d, p: nat :: IsPublished(s, d, p) && p < |Of(s, d).received| && LeaseOf(s, d, p) == l
  }

  /** No frame is published or received, no lease is created, and no call joins one. */
  ghost predicate SameFrames(s: State, t: State)
  {
    && t.nextLease == s.nextLease && t.sends.Keys == s.sends.Keys
    && (forall d :: Of(t, d).published == Of(s, d).published && Of(t, d).received == Of(s, d).received)
    && (forall i :: i in s.sends ==> t.sends[i].lease == s.sends[i].lease && (Unpublished(t.sends[i]) ==> Unpublished(s.sends[i])))
    && (forall l :: l in t.leases ==> l in s.leases && t.leases[l].size == s.leases[l].size)
    && (forall l, w :: Held(t.leases, l, ByWorker(w)) ==> Held(s.leases, l, ByWorker(w)))
  }

  lemma SameFramesKeep(s: State, t: State)
    requires Distinct(s) && Sized(s) && SameFrames(s, t)
    ensures Distinct(t) && Sized(t)
  {
    assert Of(t, Inbound).published == Of(s, Inbound).published && Of(t, Outbound).published == Of(s, Outbound).published;
    assert Distinct(t) by { hide Sized, FramesDistinct, DirectionsApart, Held; }
    hide Distinct;
    assert forall d, p: nat :: IsPublished(t, d, p) <==> IsPublished(s, d, p);
    ReceivedStays(s, t);
    hide SomeReceived;
  }

  predicate Quiet(s: State, a: Action)
  {
    match a
    case Start(_, _, _) => false
    case PublishText(i) => !Is(s, i, Reserved) || s.closed
    case TakeLease(_) => false
    case Retain(_, _, _) => false
    case _ => true
  }

  lemma ReleaseSameFrames(s: State, l: nat, h: Holder)
    ensures SameFrames(s, Release(s, l, h))
  {
  }

  lemma HoldSameFrames(s: State, l: nat, h: Holder)
    requires !h.ByWorker?
    ensures SameFrames(s, Hold(s, l, h))
  {
  }

  lemma SameFramesTwice(s: State, m: State, t: State)
    requires SameFrames(s, m) && SameFrames(m, t)
    ensures SameFrames(s, t)
  {
  }

  /** A sender moves on without publishing its text, and its channel with it. */
  lemma StageSameFrames(s: State, i: nat, stage: Stage, d: Direction, c: Channel)
    requires i in s.sends && (stage in {Waiting, Locked, HalfReserved, Reserved} ==> Unpublished(s.sends[i]))
    requires c.published == Of(s, d).published && c.received == Of(s, d).received
    ensures SameFrames(s, With(At(s, i, stage), d, c))
  {
    hide Held;
  }

  lemma GiveUpSameFrames(s: State, i: nat)
    requires i in s.sends
    ensures SameFrames(s, GivingUp(s, i))
  {
    hide Release, SameFrames;
    var k := s.sends[i];
    var c := Of(s, k.direction);
    var c' := c.(lock := if c.lock == Some(i) then None else c.lock);
    StageSameFrames(s, i, Done, k.direction, c');
    ReleaseSameFrames(With(At(s, i, Done), k.direction, c'), k.lease, BySender(i));
    SameFramesTwice(s, With(At(s, i, Done), k.direction, c'), GivingUp(s, i));
  }

  lemma PublishLeaseSameFrames(s: State, i: nat)
    requires i in s.sends && Of(s, s.sends[i].direction).published != []
    ensures SameFrames(s, PublishingLease(s, i))
  {
    hide SameFrames;
    var k := s.sends[i];
    var c := Of(s, k.direction);
    var held := Hold(s, k.lease, ByFrame(k.direction, |c.published| - 1));
    var handed := Release(held, k.lease, BySender(i));
    HoldSameFrames(s, k.lease, ByFrame(k.direction, |c.published| - 1));
    ReleaseSameFrames(held, k.lease, BySender(i));
    SameFramesTwice(s, held, handed);
    StageSameFrames(handed, i, Done, k.direction, c.(lock := None, permits := c.permits + [k.lease]));
    SameFramesTwice(s, handed, PublishingLease(s, i));
  }

  lemma QuietSteps(s: State, a: Action)
    requires Quiet(s, a)
    ensures SameFrames(s, Step(s, a))
  {
    assert SameFrames(s, s) && SameFrames(s, s.(closed := true));
    hide SameFrames, GivingUp, PublishingLease, Release;
    match a
    case TakeLock(i) =>
      if Is(s, i, Waiting) { StageSameFrames(s, i, Locked, s.sends[i].direction, Of(s, s.sends[i].direction).(lock := Some(i))); }
    case ReserveText(i) => StageOnly(s, i, Locked, HalfReserved);
    case ReservePermit(i) => StageOnly(s, i, HalfReserved, Reserved);
    case PublishText(i) => if Is(s, i, Reserved) { GiveUpSameFrames(s, i); }
    case PublishLease(i) =>
      if Is(s, i, HalfPublished) && Of(s, s.sends[i].direction).published != [] { PublishLeaseSameFrames(s, i); }
    case GiveUp(i) => if i in s.sends { GiveUpSameFrames(s, i); }
    case TakeText(d) => TakeTextSameFrames(s, d);
    case DropFrame(d, p) =>
      if p < |Of(s, d).received| { ReleaseSameFrames(s, Of(s, d).received[p].lease, ByFrame(d, p)); }
    case DropWorker(w, l) => ReleaseSameFrames(s, l, ByWorker(w));
    case _ =>
  }

  lemma StageOnly(s: State, i: nat, was: Stage, stage: Stage)
    requires was in {Waiting, Locked, HalfReserved}
    ensures Is(s, i, was) ==> SameFrames(s, At(s, i, stage))
  {
    hide Held;
  }

  lemma TakeTextSameFrames(s: State, d: Direction)
    ensures SameFrames(s, Step(s, TakeText(d)))
  {
    hide Held;
  }

  /** Whatever is added leaves what is known of the frames so far as it is. */
  lemma ReceivedStays(s: State, t: State)
    requires forall d, p: nat :: IsPublished(s, d, p) ==> IsPublished(t, d, p) && LeaseOf(t, d, p) == LeaseOf(s, d, p)
    requires forall d :: |Of(s, d).received| <= |Of(t, d).received|
    ensures forall l :: SomeReceived(s, l) ==> SomeReceived(t, l)
  {
    forall l | SomeReceived(s, l) ensures SomeReceived(t, l) {
      var d, p: nat :| IsPublished(s, d, p) && p < |Of(s, d).received| && LeaseOf(s, d, p) == l;
      assert IsPublished(t, d, p) && LeaseOf(t, d, p) == l;
    }
  }

  lemma StartKeepsDistinct(s: State, i: nat, d: Direction, text: string)
    requires Distinct(s) && Sized(s) && Valid(s)
    ensures Distinct(Step(s, Start(i, d, text))) && Sized(Step(s, Start(i, d, text)))
  {
    var t := Step(s, Start(i, d, text));
    assert s.nextLease > 0 && s.nextLease !in s.leases;
    hide Valid, Needed;
    if i !in s.sends && !s.closed {
      assert Of(t, Inbound) == Of(s, Inbound) && Of(t, Outbound) == Of(s, Outbound);
      ReceivedStays(s, t);
      hide SomeReceived;
      assert forall l, w :: Held(t.leases, l, ByWorker(w)) ==> Held(s.leases, l, ByWorker(w));
      hide Held, Step;
      assert Distinct(t) by { StartIsDistinct(s, i, d, text); }
      StartIsSized(s, i, d, text);
    }
  }

  lemma StartIsDistinct(s: State, i: nat, d: Direction, text: string)
    requires Distinct(s) && s.nextLease > 0 && i !in s.sends
    ensures Distinct(Starting(s, i, d, text))
  {
    hide Needed, SendsDistinct, FramesDistinct, DirectionsApart, SendsApart;
    var t := Starting(s, i, d, text);
    if i in t.sends {
      NewSendIsDistinct(s.inbound.published, s.sends, s.nextLease, i, t.sends[i], t.nextLease);
      NewSendIsDistinct(s.outbound.published, s.sends, s.nextLease, i, t.sends[i], t.nextLease);
    }
  }

  lemma NewSendIsDistinct(published: seq<Frame>, sends: map<nat, Send>, next: nat, i: nat, k: Send, after: nat)
    requires SendsDistinct(sends, next) && FramesDistinct(published, next) && SendsApart(published, sends) && i !in sends && next > 0
    requires (k.lease == 0 && after == next) || (k.lease == next && after == next + 1)
    ensures SendsDistinct(sends[i := k], after) && FramesDistinct(published, after) && SendsApart(published, sends[i := k])
  {
  }

  lemma StartIsSized(s: State, i: nat, d: Direction, text: string)
    requires Distinct(s) && Sized(s) && s.nextLease !in s.leases
    ensures var t := Starting(s, i, d, text);
            && (forall e, p: nat :: IsPublished(t, e, p) && LeaseOf(t, e, p) in t.leases ==>
                  t.leases[LeaseOf(t, e, p)].size == Needed(Of(t, e).published[p].text))
            && (forall e, p: nat :: IsPublished(t, e, p) && LeaseOf(t, e, p) == 0 ==> |Of(t, e).published[p].text| == 0)
  {
    hide Needed, SomeReceived;
    var t := Starting(s, i, d, text);
    assert forall e, p: nat :: IsPublished(t, e, p) <==> IsPublished(s, e, p);
  }

  lemma PublishIsDistinct(s: State, i: nat)
    requires Distinct(s) && Is(s, i, Reserved)
    ensures Distinct(PublishingText(s, i))
  {
    hide SendsDistinct, FramesDistinct, SendsApart;
    var d := s.sends[i].direction;
    assert DirectionsApart(Of(s, d).published, Of(s, Opposite(d)).published);
    hide DirectionsApart;
    AppendIsDistinct(Of(s, d).published, Of(s, Opposite(d)).published, s.sends, s.nextLease, i);
  }

  lemma PublishIsSized(s: State, i: nat)
    requires Sized(s) && Is(s, i, Reserved) && 0 !in s.leases
    requires Covered(s.leases, s.sends[i].text, s.sends[i].lease, BySender(i))
    ensures Sized(PublishingText(s, i))
  {
    hide Needed;
    var t := PublishingText(s, i);
    var d := s.sends[i].direction;
    var last := |Of(s, d).published|;
    assert Of(t, d).published[last] == Frame(s.sends[i].text, s.sends[i].lease) && t.leases == s.leases;
    assert forall e, p: nat :: IsPublished(t, e, p) && (e != d || p != last) ==> IsPublished(s, e, p) && Of(t, e).published[p] == Of(s, e).published[p];
    assert forall e, p: nat :: IsPublished(s, e, p) ==> IsPublished(t, e, p) && LeaseOf(t, e, p) == LeaseOf(s, e, p);
    hide PublishingText, Is;
    ReceivedStays(s, t);
    hide SomeReceived;
  }

  lemma PublishKeepsDistinct(s: State, i: nat)
    requires Distinct(s) && Sized(s) && Valid(s) && Is(s, i, Reserved)
    ensures Distinct(PublishingText(s, i)) && Sized(PublishingText(s, i))
  {
    hide Distinct, Sized, PublishingText;
    assert 0 !in s.leases && Covered(s.leases, s.sends[i].text, s.sends[i].lease, BySender(i));
    PublishIsDistinct(s, i);
    PublishIsSized(s, i);
  }

  /** Nothing is sent or published; a frame may be received, or a call may join a received one. */
  lemma NothingIsPublished(s: State, t: State)
    requires Distinct(s) && Sized(s) && t.sends == s.sends && t.nextLease == s.nextLease
    requires t.inbound.published == s.inbound.published && t.outbound.published == s.outbound.published
    requires |s.inbound.received| <= |t.inbound.received| && |s.outbound.received| <= |t.outbound.received|
    requires forall l :: l in t.leases ==> l in s.leases && t.leases[l].size == s.leases[l].size
    requires forall l: nat, w: nat :: Held(t.leases, l, ByWorker(w)) ==> Held(s.leases, l, ByWorker(w)) || SomeReceived(t, l)
    ensures Distinct(t) && Sized(t)
  {
    assert Distinct(t) by { hide Sized, SendsDistinct, FramesDistinct, DirectionsApart, SendsApart; }
    hide Distinct;
    assert forall e, p: nat :: IsPublished(t, e, p) <==> IsPublished(s, e, p);
    ReceivedStays(s, t);
    hide SomeReceived;
  }

  lemma TakeLeaseKeepsDistinct(s: State, d: Direction)
    requires Distinct(s) && Sized(s)
    ensures Distinct(Step(s, TakeLease(d))) && Sized(Step(s, TakeLease(d)))
  {
    hide Distinct, Sized, SomeReceived, Held;
    NothingIsPublished(s, Step(s, TakeLease(d)));
  }

  lemma RetainKeepsDistinct(s: State, d: Direction, p: nat, w: nat)
    requires Distinct(s) && Sized(s) && Valid(s)
    ensures Distinct(Step(s, Retain(d, p, w))) && Sized(Step(s, Retain(d, p, w)))
  {
    hide Distinct, Sized;
    if p < |Of(s, d).received| {
      assert ChannelValid(d, Of(s, d), s.sends, s.leases);
      assert Of(s, d).received <= Of(s, d).published;
      hide Valid;
      var t := Hold(s, Of(s, d).received[p].lease, ByWorker(w));
      assert t == s.(leases := t.leases);
      RetainsReceived(t, d, p, Of(s, d).received[p].lease);
      hide SomeReceived;
      NothingIsPublished(s, t);
    }
  }

  lemma RetainsReceived(s: State, d: Direction, p: nat, l: nat)
    requires p < |Of(s, d).received| && IsPublished(s, d, p) && LeaseOf(s, d, p) == l
    ensures SomeReceived(s, l)
  {
  }

  lemma StepKeepsDistinct(s: State, a: Action)
    requires Distinct(s) && Sized(s) && Valid(s)
    ensures Distinct(Step(s, a)) && Sized(Step(s, a))
  {
    hide Distinct, Sized, Valid, SameFrames, Starting;
    if Quiet(s, a) {
      QuietSteps(s, a);
      SameFramesKeep(s, Step(s, a));
    } else {
      match a {
        case Start(i, d, text) => StartKeepsDistinct(s, i, d, text);
        case PublishText(i) => PublishKeepsDistinct(s, i);
        case TakeLease(d) => TakeLeaseKeepsDistinct(s, d);
        case Retain(d, p, w) => RetainKeepsDistinct(s, d, p, w);
        case _ =>
      }
    }
  }

  lemma {:induction false} RunIsDistinct(schedule: seq<Action>)
    ensures Distinct(Run(INITIAL, schedule)) && Sized(Run(INITIAL, schedule))
  {
    if schedule != [] {
      var before := schedule[..|schedule| - 1];
      RunIsDistinct(before);
      RunIsValid(before);
      hide Distinct, Sized, Valid, Step;
      StepKeepsDistinct(Run(INITIAL, before), schedule[|schedule| - 1]);
    }
  }

  // ---------------------------------------------------------------- how long a lease lives

  function Received(s: State, d: Direction): nat { |Of(s, d).received| }

  /** The transport writer or the loop drops frame `p`, which it has received, at step `q`. */
  predicate DropsFrame(schedule: seq<Action>, d: Direction, p: nat, q: nat)
  {
    q < |schedule| && schedule[q] == DropFrame(d, p) && p < Received(Run(INITIAL, schedule[..q]), d)
  }

  ghost predicate Dropped(schedule: seq<Action>, d: Direction, p: nat)
  {
    exists q: nat :: DropsFrame(schedule, d, p, q)
  }

  /** Call `w`, dispatched from frame `p` at step `q` while the frame was there, has not let go of its
      share of lease `l`. */
  ghost predicate SharesSince(schedule: seq<Action>, d: Direction, p: nat, w: nat, l: nat, q: nat)
  {
    && q < |schedule| && schedule[q] == Retain(d, p, w)
    && p < Received(Run(INITIAL, schedule[..q]), d) && !Dropped(schedule[..q], d, p)
    && forall r :: q < r < |schedule| ==> schedule[r] != DropWorker(w, l)
  }

  ghost predicate Shares(schedule: seq<Action>, d: Direction, p: nat, w: nat, l: nat)
  {
    exists q: nat :: SharesSince(schedule, d, p, w, l, q)
  }

  /** Somebody still needs the bytes of frame `p`: it is being written or dispatched, or a call
      dispatched from it is not done with it. */
  ghost predicate Needs(schedule: seq<Action>, d: Direction, p: nat, l: nat)
  {
    !Dropped(schedule, d, p) || exists w :: Shares(schedule, d, p, w, l)
  }

  lemma DroppedLater(before: seq<Action>, a: Action, d: Direction, p: nat)
    ensures Dropped(before + [a], d, p) <==>
            Dropped(before, d, p) || (a == DropFrame(d, p) && p < Received(Run(INITIAL, before), d))
  {
    var schedule := before + [a];
    assert forall q: nat :: q <= |before| ==> schedule[..q] == before[..q];
    assert before[..|before|] == before;
    if q: nat :| DropsFrame(before, d, p, q) { assert DropsFrame(schedule, d, p, q); }
    if a == DropFrame(d, p) && p < Received(Run(INITIAL, before), d) { assert DropsFrame(schedule, d, p, |before|); }
    if q: nat :| DropsFrame(schedule, d, p, q) {
      if q < |before| { assert DropsFrame(before, d, p, q); }
    }
  }

  lemma SharesLater(before: seq<Action>, a: Action, d: Direction, p: nat, w: nat, l: nat)
    ensures Shares(before + [a], d, p, w, l) <==>
            || (Shares(before, d, p, w, l) && a != DropWorker(w, l))
            || (a == Retain(d, p, w) && p < Received(Run(INITIAL, before), d) && !Dropped(before, d, p))
  {
    var schedule := before + [a];
    hide Run;
    assert forall q: nat :: q <= |before| ==> schedule[..q] == before[..q];
    assert before[..|before|] == before;
    if q: nat :| SharesSince(before, d, p, w, l, q) {
      if a != DropWorker(w, l) { assert SharesSince(schedule, d, p, w, l, q); }
    }
    if a == Retain(d, p, w) && p < Received(Run(INITIAL, before), d) && !Dropped(before, d, p) {
      assert SharesSince(schedule, d, p, w, l, |before|);
    }
    if q: nat :| SharesSince(schedule, d, p, w, l, q) {
      if q < |before| {
        assert schedule[|before|] != DropWorker(w, l);
        assert SharesSince(before, d, p, w, l, q);
      }
    }
  }

  /** The frame lets go only when it is dropped; a call joins only when it is dispatched from a frame
      that is still there, and lets go only when it is done. */
  ghost predicate HoldersKept(s: State, t: State, a: Action)
  {
    && (forall l: nat, d, p: nat :: p < Received(s, d) ==>
          (Held(t.leases, l, ByFrame(d, p)) <==>
             Held(s.leases, l, ByFrame(d, p)) && !(a == DropFrame(d, p) && Of(s, d).received[p].lease == l)))
    && (forall l: nat, w: nat :: Held(t.leases, l, ByWorker(w)) <==>
          (Held(s.leases, l, ByWorker(w)) && a != DropWorker(w, l)) || Joins(s, a, l, w))
  }

  predicate Joins(s: State, a: Action, l: nat, w: nat)
  {
    && a.Retain? && a.worker == w && a.position < Received(s, a.direction)
    && Of(s, a.direction).received[a.position].lease == l && Held(s.leases, l, ByFrame(a.direction, a.position))
  }

  /** Only a sender lets go, or joins with a frame that has not been received. */
  lemma SenderChangesHolders(s: State, t: State, a: Action, leaving: Option<(nat, Holder)>, joining: Option<(nat, Holder)>)
    requires Changed(s.leases, t.leases, leaving, joining) && !a.DropFrame? && !a.DropWorker? && !a.Retain?
    requires leaving.Some? ==> leaving.value.1.BySender?
    requires joining.Some? ==> joining.value.1.BySender? || (joining.value.1.ByFrame? && joining.value.1.position >= Received(s, joining.value.1.direction))
    ensures HoldersKept(s, t, a)
  {
  }

  lemma StartHolders(s: State, i: nat, d: Direction, text: string)
    requires Valid(s)
    ensures HoldersKept(s, Step(s, Start(i, d, text)), Start(i, d, text))
  {
    var t := Step(s, Start(i, d, text));
    if t.leases == s.leases {
      UnchangedLeases(s.leases);
      hide Valid, Changed, HoldersKept;
      SenderChangesHolders(s, t, Start(i, d, text), None, None);
    } else {
      ReserveKeepsBudget(s.leases, s.nextLease, s.free, Needed(text), BySender(i));
      hide Valid, Changed, HoldersKept;
      SenderChangesHolders(s, t, Start(i, d, text), None, Some((s.nextLease, BySender(i))));
    }
  }

  lemma GiveUpHolders(s: State, i: nat, a: Action)
    requires Valid(s) && i in s.sends && (a.GiveUp? || a.PublishText?)
    ensures HoldersKept(s, GivingUp(s, i), a)
  {
    var k := s.sends[i];
    ReleaseKeepsBudget(s, k.lease, BySender(i));
    assert GivingUp(s, i).leases == Release(s, k.lease, BySender(i)).leases;
    hide Valid, Changed, HoldersKept, GivingUp, Release;
    SenderChangesHolders(s, GivingUp(s, i), a, Some((k.lease, BySender(i))), None);
  }

  lemma PublishLeaseHolders(s: State, i: nat)
    requires Valid(s) && Is(s, i, HalfPublished) && Of(s, s.sends[i].direction).published != []
    ensures HoldersKept(s, PublishingLease(s, i), PublishLease(i))
  {
    var k := s.sends[i];
    var c := Of(s, k.direction);
    var p := |c.published| - 1;
    LockPublishesLease(k.direction, c, s.sends, i);
    HandingLeases(s, i);
    var m := Hold(s, k.lease, ByFrame(k.direction, p));
    var t := PublishingLease(s, i);
    assert t.leases == Release(m, k.lease, BySender(i)).leases;
    assert m == s.(leases := m.leases);
    hide Valid, Changed, HoldersKept, PublishingLease, Release, Hold, LockValid;
    SenderChangesHolders(s, m, PublishLease(i), None, if k.lease in s.leases then Some((k.lease, ByFrame(k.direction, p))) else None);
    SenderChangesHolders(m, t, PublishLease(i), Some((k.lease, BySender(i))), None);
    HoldersTwice(s, m, t, PublishLease(i));
  }

  lemma HoldersTwice(s: State, m: State, t: State, a: Action)
    requires HoldersKept(s, m, a) && HoldersKept(m, t, a) && !a.DropFrame? && !a.DropWorker? && !a.Retain?
    requires m == s.(leases := m.leases)
    ensures HoldersKept(s, t, a)
  {
  }

  lemma WorkerDropHolders(s: State, w: nat, l: nat)
    requires Valid(s)
    ensures HoldersKept(s, Step(s, DropWorker(w, l)), DropWorker(w, l))
  {
    ReleaseKeepsBudget(s, l, ByWorker(w));
    hide Valid, Release, BudgetValid;
  }

  lemma FrameDropHolders(s: State, d: Direction, p: nat)
    requires Valid(s) && p < Received(s, d)
    ensures HoldersKept(s, Step(s, DropFrame(d, p)), DropFrame(d, p))
  {
    ReleaseKeepsBudget(s, Of(s, d).received[p].lease, ByFrame(d, p));
    hide Valid, Release, BudgetValid;
  }

  lemma RetainHolders(s: State, d: Direction, p: nat, w: nat)
    requires Valid(s) && p < Received(s, d)
    ensures HoldersKept(s, Step(s, Retain(d, p, w)), Retain(d, p, w))
  {
    HoldKeepsBudget(s, Of(s, d).received[p].lease, ByWorker(w));
    hide Valid, Hold, BudgetValid;
  }

  lemma StepHolders(s: State, a: Action)
    requires Valid(s)
    ensures HoldersKept(s, Step(s, a), a)
  {
    hide Valid, HoldersKept, GivingUp, PublishingLease;
    match a
    case Start(i, d, text) => StartHolders(s, i, d, text);
    case PublishText(i) =>
      if Is(s, i, Reserved) && s.closed { GiveUpHolders(s, i, a); } else { SameHolders(s, Step(s, a), a); }
    case PublishLease(i) =>
      if Is(s, i, HalfPublished) && Of(s, s.sends[i].direction).published != [] { PublishLeaseHolders(s, i); }
      else { SameHolders(s, s, a); }
    case GiveUp(i) =>
      if Is(s, i, Waiting) || Is(s, i, Locked) || Is(s, i, HalfReserved) { GiveUpHolders(s, i, a); } else { SameHolders(s, s, a); }
    case Retain(d, p, w) => if p < Received(s, d) { RetainHolders(s, d, p, w); } else { NobodyThere(s, a); }
    case DropFrame(d, p) => if p < Received(s, d) { FrameDropHolders(s, d, p); } else { NobodyThere(s, a); }
    case DropWorker(w, l) => WorkerDropHolders(s, w, l);
    case _ => SameHolders(s, Step(s, a), a);
  }

  lemma NobodyThere(s: State, a: Action)
    requires (a.Retain? && a.position >= Received(s, a.direction)) || (a.DropFrame? && a.position >= Received(s, a.direction))
    ensures HoldersKept(s, s, a)
  {
  }

  lemma SameHolders(s: State, t: State, a: Action)
    requires t.leases == s.leases && !a.DropFrame? && !a.DropWorker? && !a.Retain?
    ensures HoldersKept(s, t, a)
  {
  }

  lemma ReceivedGrows(s: State, a: Action, d: Direction)
    ensures Of(s, d).received <= Of(Step(s, a), d).received
    ensures |Of(Step(s, a), d).received| <= |Of(s, d).received| + 1
    ensures |Of(Step(s, a), d).received| > |Of(s, d).received| ==>
              a == TakeLease(d) && Step(s, a).leases == s.leases && Of(Step(s, a), d).published == Of(s, d).published
  {
  }

  /** A frame that has just been received holds its lease, and no call shares it. */
  lemma NewFrameHolders(s: State, d: Direction, p: nat, l: nat)
    requires Valid(s) && Distinct(s) && Sized(s) && p == Received(s, d) && IsPublished(s, d, p) && LeaseOf(s, d, p) == l && l != 0
    requires p < Paired(Of(s, d), s.sends)
    ensures Held(s.leases, l, ByFrame(d, p))
    ensures forall w: nat :: !Held(s.leases, l, ByWorker(w))
  {
    assert ChannelValid(d, Of(s, d), s.sends, s.leases);
    assert Covered(s.leases, Of(s, d).published[p].text, l, ByFrame(d, p));
    hide Valid;
    forall w: nat ensures !Held(s.leases, l, ByWorker(w)) {
      if Held(s.leases, l, ByWorker(w)) {
        assert SomeReceived(s, l);
        var e, q: nat :| IsPublished(s, e, q) && q < |Of(s, e).received| && LeaseOf(s, e, q) == l;
        hide Sized;
        DifferentFrames(s, d, p, e, q);
      }
    }
  }

  lemma NewlyPaired(s: State, d: Direction)
    requires Valid(s) && |Of(Step(s, TakeLease(d)), d).received| > |Of(s, d).received|
    ensures var p := Received(s, d);
            p < Paired(Of(s, d), s.sends) && IsPublished(s, d, p) && Of(s, d).published[p] == Of(Step(s, TakeLease(d)), d).received[p]
  {
    assert ChannelValid(d, Of(s, d), s.sends, s.leases);
  }

  lemma {:induction false} OnlyReceivedFrames(schedule: seq<Action>, d: Direction, p: nat)
    requires p >= Received(Run(INITIAL, schedule), d)
    ensures !Dropped(schedule, d, p)
    ensures forall w: nat, l: nat :: !Shares(schedule, d, p, w, l)
  {
    if schedule != [] {
      var before, a := schedule[..|schedule| - 1], schedule[|schedule| - 1];
      assert before + [a] == schedule;
      ReceivedGrows(Run(INITIAL, before), a, d);
      OnlyReceivedFrames(before, d, p);
      hide Dropped, Shares, Step;
      DroppedLater(before, a, d, p);
      forall w: nat, l: nat ensures !Shares(schedule, d, p, w, l) { SharesLater(before, a, d, p, w, l); }
    }
  }

  /** The holders of lease `l` of frame `p` are the frame until it is dropped, and the calls that were
      dispatched from it and are not done. */
  ghost predicate HoldersKnown(s: State, schedule: seq<Action>, d: Direction, p: nat, l: nat)
  {
    && (Held(s.leases, l, ByFrame(d, p)) <==> !Dropped(schedule, d, p))
    && forall w: nat :: Held(s.leases, l, ByWorker(w)) <==> Shares(schedule, d, p, w, l)
  }

  lemma HoldersLater(before: seq<Action>, a: Action, d: Direction, p: nat, l: nat)
    requires var s := Run(INITIAL, before);
             && Valid(s) && p < Received(s, d) && Of(s, d).received[p].lease == l && HoldersKnown(s, before, d, p, l)
             && forall e, q: nat :: q < Received(s, e) && Of(s, e).received[q].lease == l ==> e == d && q == p
    ensures HoldersKnown(Step(Run(INITIAL, before), a), before + [a], d, p, l)
  {
    var s := Run(INITIAL, before);
    var t := Step(s, a);
    StepHolders(s, a);
    hide Valid, Step, Dropped, Shares, Run, Held;
    DroppedLater(before, a, d, p);
    forall w: nat ensures Held(t.leases, l, ByWorker(w)) <==> Shares(before + [a], d, p, w, l) {
      SharesLater(before, a, d, p, w, l);
      assert Joins(s, a, l, w) <==> a == Retain(d, p, w) && Held(s.leases, l, ByFrame(d, p));
    }
  }

  lemma LeaseOfOne(s: State, d: Direction, p: nat, l: nat)
    requires Valid(s) && Distinct(s) && p < Received(s, d) && Of(s, d).received[p].lease == l && l != 0
    ensures IsPublished(s, d, p) && Of(s, d).published[p] == Of(s, d).received[p]
    ensures forall e, q: nat :: q < Received(s, e) && Of(s, e).received[q].lease == l ==> e == d && q == p
  {
    assert ChannelValid(Inbound, s.inbound, s.sends, s.leases) && ChannelValid(Outbound, s.outbound, s.sends, s.leases);
    assert Of(s, Inbound).received <= Of(s, Inbound).published && Of(s, Outbound).received <= Of(s, Outbound).published;
    hide Valid;
    forall e, q: nat | q < Received(s, e) && Of(s, e).received[q].lease == l ensures e == d && q == p {
      assert IsPublished(s, e, q) && LeaseOf(s, e, q) == l;
      DifferentFrames(s, d, p, e, q);
    }
  }

  lemma {:induction false} HoldersAreKnown(schedule: seq<Action>, d: Direction, p: nat, l: nat)
    requires var s := Run(INITIAL, schedule); p < Received(s, d) && Of(s, d).received[p].lease == l && l != 0
    ensures HoldersKnown(Run(INITIAL, schedule), schedule, d, p, l)
  {
    if schedule != [] {
      var before, a := schedule[..|schedule| - 1], schedule[|schedule| - 1];
      var s := Run(INITIAL, before);
      assert before + [a] == schedule;
      RunIsValid(before);
      RunIsDistinct(before);
      ReceivedGrows(s, a, d);
      hide Valid, Distinct, Sized, Step, HoldersKnown;
      if p < Received(s, d) {
        HoldersAreKnown(before, d, p, l);
        LeaseOfOne(s, d, p, l);
        HoldersLater(before, a, d, p, l);
      } else {
        NewlyPaired(s, d);
        NewFrameHolders(s, d, p, l);
        OnlyReceivedFrames(before, d, p);
        NewFrameIsKnown(before, a, d, p, l);
      }
    }
  }

  lemma NewFrameIsKnown(before: seq<Action>, a: Action, d: Direction, p: nat, l: nat)
    requires var s := Run(INITIAL, before);
             && a.TakeLease? && Step(s, a).leases == s.leases && Held(s.leases, l, ByFrame(d, p))
             && forall w: nat :: !Held(s.leases, l, ByWorker(w))
    requires !Dropped(before, d, p) && forall w: nat, l: nat :: !Shares(before, d, p, w, l)
    ensures HoldersKnown(Step(Run(INITIAL, before), a), before + [a], d, p, l)
  {
    hide Dropped, Shares, Step, Run, Held;
    DroppedLater(before, a, d, p);
    forall w: nat ensures !Shares(before + [a], d, p, w, l) { SharesLater(before, a, d, p, w, l); }
  }

  // ---------------------------------------------------------------- the life of a lease

  /** In every run, the lease of a frame that was received is live, with exactly the bytes the frame
      needs, as long as the frame is being written or dispatched or a call dispatched from it is not
      done, and no longer. */
  lemma LeaseLivesAsNeeded(schedule: seq<Action>, d: Direction, p: nat)
    requires p < Received(Run(INITIAL, schedule), d) && Of(Run(INITIAL, schedule), d).received[p].lease != 0
    ensures var s := Run(INITIAL, schedule); var f := Of(s, d).received[p];
            && (f.lease in s.leases <==> Needs(schedule, d, p, f.lease))
            && (f.lease in s.leases ==> s.leases[f.lease].size == Needed(f.text))
  {
    var s := Run(INITIAL, schedule);
    var l := Of(s, d).received[p].lease;
    RunIsValid(schedule);
    RunIsDistinct(schedule);
    HoldersAreKnown(schedule, d, p, l);
    hide Run;
    LeaseOfOne(s, d, p, l);
    assert LeaseOf(s, d, p) == l;
    assert forall w: nat :: Shares(schedule, d, p, w, l) ==> Held(s.leases, l, ByWorker(w));
    if l in s.leases {
      assert s.leases[l].holders != {};
      var h :| h in s.leases[l].holders;
      ReceivedHolders(s, d, p, l, h);
    }
  }

  /** Nobody but a received frame and its calls holds its lease. */
  lemma ReceivedHolders(s: State, d: Direction, p: nat, l: nat, h: Holder)
    requires Valid(s) && Distinct(s) && p < Received(s, d) && Of(s, d).received[p].lease == l && l != 0 && Held(s.leases, l, h)
    ensures h == ByFrame(d, p) || h.ByWorker?
  {
    LeaseOfOne(s, d, p, l);
    assert LeaseOf(s, d, p) == l;
    match h
    case BySender(i) =>
      assert i in s.sends && Active(s.sends[i]) && s.sends[i].lease == l;
      SenderIsDone(s, i, d, p);
      assert false;
    case ByFrame(e, q) =>
      assert ChannelValid(e, Of(s, e), s.sends, s.leases);
      assert IsPublished(s, e, q) && LeaseOf(s, e, q) == l;
      hide Valid;
      DifferentFrames(s, d, p, e, q);
    case ByWorker(_) =>
  }

  /** The sender of a received frame is done with it. */
  lemma SenderIsDone(s: State, i: nat, d: Direction, p: nat)
    requires Valid(s) && Distinct(s) && i in s.sends && Active(s.sends[i])
    requires p < Received(s, d) && IsPublished(s, d, p) && LeaseOf(s, d, p) != 0
    ensures s.sends[i].lease != LeaseOf(s, d, p)
  {
    if s.sends[i].stage.HalfPublished? {
      var e := s.sends[i].direction;
      var last := |Of(s, e).published| - 1;
      assert ChannelValid(e, Of(s, e), s.sends, s.leases) && ChannelValid(d, Of(s, d), s.sends, s.leases);
      assert LockValid(e, Of(s, e), s.sends);
      assert HoldsLock(s.sends[i].stage) && Of(s, e).lock == Some(i);
      assert Of(s, e).published[last] == Frame(s.sends[i].text, s.sends[i].lease) && Received(s, e) <= last;
      hide Valid, LockValid;
      DifferentFrames(s, d, p, e, last);
    }
  }

  /** Every frame from its publication to the end of its writing or dispatch is covered by a lease of
      exactly the bytes it needs (the whole budget if it is oversized): its own, or still its sender's. */
  lemma FramesAreCovered(schedule: seq<Action>, d: Direction, p: nat)
    requires p < |Of(Run(INITIAL, schedule), d).published| && !Dropped(schedule, d, p)
    ensures var s := Run(INITIAL, schedule); var f := Of(s, d).published[p];
            || Covered(s.leases, f.text, f.lease, ByFrame(d, p))
            || exists i :: i in s.sends && s.sends[i].stage.HalfPublished? && Covered(s.leases, f.text, f.lease, BySender(i))
  {
    var s := Run(INITIAL, schedule);
    RunIsValid(schedule);
    if p >= Received(s, d) {
      hide Run;
      CoverOfQueued(s, d, p);
    } else {
      var f := Of(s, d).received[p];
      assert Of(s, d).published[p] == f by { assert ChannelValid(d, Of(s, d), s.sends, s.leases); }
      if f.lease != 0 {
        HoldersAreKnown(schedule, d, p, f.lease);
        LeaseLivesAsNeeded(schedule, d, p);
      } else {
        RunIsDistinct(schedule);
        assert IsPublished(s, d, p) && LeaseOf(s, d, p) == 0;
      }
    }
  }

  lemma CoverOfQueued(s: State, d: Direction, p: nat)
    requires Valid(s) && |Of(s, d).received| <= p < |Of(s, d).published|
    ensures var f := Of(s, d).published[p];
            || Covered(s.leases, f.text, f.lease, ByFrame(d, p))
            || exists i :: i in s.sends && s.sends[i].stage.HalfPublished? && Covered(s.leases, f.text, f.lease, BySender(i))
  {
  }

  /** The bytes of a shared lease return at once when the last of the frame and the calls dispatched
      from it has let go, and not before: a batch's input lease when its last member is done. */
  lemma BytesReturnWithTheLastHolder(schedule: seq<Action>, a: Action, d: Direction, p: nat)
    requires p < Received(Run(INITIAL, schedule), d) && Of(Run(INITIAL, schedule), d).received[p].lease != 0
    ensures var s := Run(INITIAL, schedule); var t := Run(INITIAL, schedule + [a]); var f := Of(s, d).received[p];
            && (Needs(schedule, d, p, f.lease) && !Needs(schedule + [a], d, p, f.lease) ==>
                  (a == DropFrame(d, p) || (a.DropWorker? && a.lease == f.lease)) && t.free == s.free + Needed(f.text))
            && (Needs(schedule + [a], d, p, f.lease) ==> f.lease in t.leases && t.leases[f.lease].size == Needed(f.text))
            && (!Needs(schedule, d, p, f.lease) ==> !Needs(schedule + [a], d, p, f.lease))
  {
    var s, t := Run(INITIAL, schedule), Run(INITIAL, schedule + [a]);
    var f := Of(s, d).received[p];
    assert (schedule + [a])[..|schedule|] == schedule;
    ReceivedGrows(s, a, d);
    LeaseLivesAsNeeded(schedule, d, p);
    LeaseLivesAsNeeded(schedule + [a], d, p);
    RunIsValid(schedule);
    RunIsDistinct(schedule);
    RunIsValid(schedule + [a]);
    RunIsDistinct(schedule + [a]);
    LeaseLeaves(s, a, d, p, f.lease);
    hide Run, Step, Needs, Valid;
  }

  lemma SomeHolder(s: State, d: Direction, p: nat, l: nat) returns (h: Holder)
    requires Valid(s) && Distinct(s) && p < Received(s, d) && Of(s, d).received[p].lease == l && l != 0 && l in s.leases
    ensures Held(s.leases, l, h) && (h == ByFrame(d, p) || h.ByWorker?)
  {
    assert s.leases[l].holders != {};
    h :| h in s.leases[l].holders;
    ReceivedHolders(s, d, p, l, h);
  }

  /** A lease that goes with a step was released by it, and none that is gone comes back. */
  lemma LeaseLeaves(s: State, a: Action, d: Direction, p: nat, l: nat)
    requires Valid(s) && Distinct(s) && p < Received(s, d) && Of(s, d).received[p].lease == l && l != 0
    requires var t := Step(s, a); Valid(t) && Distinct(t) && p < Received(t, d) && Of(t, d).received[p].lease == l
    ensures l in Step(s, a).leases ==> l in s.leases
    ensures l in s.leases && l !in Step(s, a).leases ==>
              && (a == DropFrame(d, p) || (a.DropWorker? && a.lease == l))
              && Step(s, a).free == s.free + s.leases[l].size
  {
    StepHolders(s, a);
    LeaseOfOne(s, d, p, l);
    hide Valid, Distinct, Step;
    var t := Step(s, a);
    if l in t.leases { var h := SomeHolder(t, d, p, l); }
    if l in s.leases && l !in t.leases {
      var h := SomeHolder(s, d, p, l);
      hide HoldersKept, Held;
      assert a == DropFrame(d, p) || (a.DropWorker? && a.lease == l);
      LeaseReleased(s, a, d, p, l);
    }
  }

  lemma LeaseReleased(s: State, a: Action, d: Direction, p: nat, l: nat)
    requires p < Received(s, d) && Of(s, d).received[p].lease == l && l in s.leases && l !in Step(s, a).leases
    requires a == DropFrame(d, p) || (a.DropWorker? && a.lease == l)
    ensures Step(s, a).free == s.free + s.leases[l].size
  {
  }

  /** Both queues stay within their bounds although a text and its lease are published apart. */
  lemma QueuesAreBounded(schedule: seq<Action>, d: Direction)
    ensures var c := Of(Run(INITIAL, schedule), d); |c.texts| <= CAPACITY && |c.permits| <= CAPACITY
  {
    RunIsValid(schedule);
  }
}

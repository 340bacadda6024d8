/** The bounded diagnostics ring of the service worker (pwa/public/serviceWorker.js): records and
    clears are serialized on one queue, records carry the epoch in which their request began, and a
    ring that is too long or too large loses its oldest entries.

    The history fields count what was accepted and evicted since the ring was last emptied, and number
    the calls of the worker, so that every retained record can be traced to the call that made it. */
module Diagnostics {
  import opened Json

  const LIMIT: nat := 60
  const MAX_BYTES: nat := 24 * 1024

  /** What identifies a record apart from its duration and its count. */
  datatype Key = Key(event: string, request: string)

  /** `epoch` and `calls` are history: the epoch of the records merged into the entry (None: read from
      storage), and the calls that made them. */
  datatype Entry = Entry(key: Key, at: int, duration: int, count: Option<nat>, epoch: Option<nat>, calls: seq<nat>)

  datatype Action = Load(saved: seq<Entry>) | Record(epoch: nat, key: Key, duration: int, at: int, call: nat) | Clear

  function Count(e: Entry): nat { if e.count.Some? then e.count.value else 1 }

  function Total(events: seq<Entry>): nat
  {
    if events == [] then 0 else Count(events[0]) + Total(events[1..])
  }

  // ---------------------------------------------------------------- trimming

  function Sizes(size: Entry -> nat, events: seq<Entry>): nat
  {
    if events == [] then 0 else size(events[0]) + Sizes(size, events[1..])
  }

  /** The length of the serialized array: brackets, entries and separators. */
  function Bytes(size: Entry -> nat, events: seq<Entry>): nat
  {
    2 + Sizes(size, events) + if events == [] then 0 else |events| - 1
  }

  predicate Fits(size: Entry -> nat, events: seq<Entry>)
  {
    |events| <= LIMIT && Bytes(size, events) <= MAX_BYTES
  }

  /** The oldest entries go until the rest fits. */
  function Trimmed(size: Entry -> nat, events: seq<Entry>): seq<Entry>
  {
    if events == [] || Fits(size, events) then events else Trimmed(size, events[1..])
  }

  /** Trimming keeps the longest suffix within both bounds. */
  lemma {:induction false} TrimmedIsLongestFit(size: Entry -> nat, events: seq<Entry>) returns (n: nat)
    ensures n <= |events| && Trimmed(size, events) == events[n..]
    ensures Fits(size, Trimmed(size, events))
    ensures forall m :: 0 <= m < n ==> !Fits(size, events[m..])
  {
    assert events[0..] == events;
    if events == [] || Fits(size, events) {
      n := 0;
    } else {
      var k := TrimmedIsLongestFit(size, events[1..]);
      n := k + 1;
      assert events[1..][k..] == events[n..];
      forall m | 0 <= m < n ensures !Fits(size, events[m..]) {
        if m > 0 { assert events[1..][m - 1..] == events[m..]; }
      }
    }
  }

  lemma {:induction false} TotalOfAppend(events: seq<Entry>, e: Entry)
    ensures Total(events + [e]) == Total(events) + Count(e)
  {
    if events == [] {
      assert [] + [e] == [e] && [e][1..] == [];
    } else {
      assert (events + [e])[1..] == events[1..] + [e];
      TotalOfAppend(events[1..], e);
    }
  }

  // ---------------------------------------------------------------- recording

  /** A record equal to the newest entry is counted there; any other becomes an entry. */
  function Merged(events: seq<Entry>, a: Action): seq<Entry>
    requires a.Record?
  {
    if events != [] && events[|events| - 1].key == a.key then
      var last := events[|events| - 1];
      events[..|events| - 1] + [Entry(last.key, a.at, a.duration, Some(Count(last) + 1), Some(a.epoch), last.calls + [a.call])]
    else events + [Entry(a.key, a.at, a.duration, None, Some(a.epoch), [a.call])]
  }

  lemma MergedAddsOne(events: seq<Entry>, a: Action)
    requires a.Record?
    ensures Total(Merged(events, a)) == Total(events) + 1
  {
    if events != [] && events[|events| - 1].key == a.key {
      var last := events[|events| - 1];
      assert events == events[..|events| - 1] + [last];
      TotalOfAppend(events[..|events| - 1], last);
      TotalOfAppend(events[..|events| - 1], Entry(last.key, a.at, a.duration, Some(Count(last) + 1), Some(a.epoch), last.calls + [a.call]));
    } else {
      TotalOfAppend(events, Entry(a.key, a.at, a.duration, None, Some(a.epoch), [a.call]));
    }
  }

  // ---------------------------------------------------------------- the queue

  function Clears(queue: seq<Action>): nat
  {
    if queue == [] then 0 else Clears(queue[..|queue| - 1]) + if queue[|queue| - 1].Clear? then 1 else 0
  }

  predicate FromStorage(saved: seq<Entry>) { forall i :: 0 <= i < |saved| ==> saved[i].epoch.None? && saved[i].calls == [] }

  /** A record waits behind exactly the clears that began its epoch, and storage is read first. */
  ghost predicate QueueValid(queue: seq<Action>, cleared: nat, generation: nat)
  {
    && generation == cleared + Clears(queue)
    && (forall p :: 0 <= p < |queue| && queue[p].Record? ==> queue[p].epoch == cleared + Clears(queue[..p]))
    && (forall p :: 0 <= p < |queue| && queue[p].Load? ==> p == 0 && cleared == 0 && FromStorage(queue[p].saved))
  }

  lemma {:induction false} ClearsOfTail(queue: seq<Action>)
    requires queue != []
    ensures Clears(queue) == (if queue[0].Clear? then 1 else 0) + Clears(queue[1..])
  {
    if |queue| == 1 {
      assert queue[..0] == [] && queue[1..] == [];
    } else {
      ClearsOfTail(queue[..|queue| - 1]);
      assert queue[..|queue| - 1][1..] == queue[1..][..|queue| - 2];
    }
  }

  lemma QueueAdvances(queue: seq<Action>, cleared: nat, generation: nat)
    requires QueueValid(queue, cleared, generation) && queue != []
    ensures QueueValid(queue[1..], cleared + (if queue[0].Clear? then 1 else 0), generation)
    ensures queue[0].Record? ==> queue[0].epoch == cleared
  {
    ClearsOfTail(queue);
    assert queue[..0] == [];
    forall p | 0 <= p < |queue| - 1 && queue[1..][p].Record?
      ensures queue[1..][p].epoch == cleared + (if queue[0].Clear? then 1 else 0) + Clears(queue[1..][..p])
    {
      assert queue[p + 1].Record?;
      ClearsOfTail(queue[..p + 1]);
      assert queue[..p + 1][1..] == queue[1..][..p];
    }
  }

  lemma QueueGrows(queue: seq<Action>, cleared: nat, generation: nat, a: Action)
    requires QueueValid(queue, cleared, generation) && !a.Load? && (a.Record? ==> a.epoch == generation)
    ensures QueueValid(queue + [a], cleared, generation + if a.Clear? then 1 else 0)
  {
    var grown := queue + [a];
    assert grown[..|grown| - 1] == queue;
    var g := generation + if a.Clear? then 1 else 0;
    assert g == cleared + Clears(grown);
    forall p | 0 <= p < |grown| && grown[p].Record? ensures grown[p].epoch == cleared + Clears(grown[..p]) {
      hide Clears;
      assert grown[..p] == queue[..p];
      if p < |queue| { assert queue[p].Record?; }
    }
    assert QueueValid(grown, cleared, g) by { hide Clears; }
  }

  /** Every entry was recorded in the current epoch, or storage was read and nothing cleared yet. */
  ghost predicate EntriesValid(events: seq<Entry>, cleared: nat)
  {
    forall i :: 0 <= i < |events| ==> if events[i].epoch.None? then cleared == 0 else events[i].epoch.value == cleared
  }

  lemma LoadIsFirst(queue: seq<Action>, cleared: nat, generation: nat)
    requires QueueValid(queue, cleared, generation) && queue != []
    ensures queue[0].Load? ==> EntriesValid(queue[0].saved, cleared)
  {
  }

  lemma MergedIsCurrent(events: seq<Entry>, cleared: nat, a: Action)
    requires EntriesValid(events, cleared) && a.Record? && a.epoch == cleared
    ensures EntriesValid(Merged(events, a), cleared)
  {
  }

  // ---------------------------------------------------------------- calls

  /** `cleared` counts the clears that have run and `clock` the calls so far. */
  datatype State = State(events: seq<Entry>, generation: nat, queue: seq<Action>, cleared: nat, clock: nat)

  /** A finished request is recorded, the ring is cleared, or the oldest queued action runs. */
  datatype Call = RecordCall(epoch: nat, key: Key, duration: int, at: int) | ClearCall | Turn

  function RunOldest(size: Entry -> nat, s: State): State
    requires s.queue != []
  {
    var t := s.(queue := s.queue[1..]);
    match s.queue[0]
    case Load(saved) => t.(events := saved)
    case Clear => t.(events := [], cleared := s.cleared + 1)
    case Record(epoch, _, _, _, _) =>
      if epoch != s.generation then t else t.(events := Trimmed(size, Merged(s.events, s.queue[0])))
  }

  function Step(size: Entry -> nat, s: State, c: Call): State
  {
    var t :=
      match c
      case RecordCall(epoch, key, duration, at) =>
        if epoch == s.generation then s.(queue := s.queue + [Record(epoch, key, duration, at, s.clock)]) else s
      case ClearCall => s.(generation := s.generation + 1, queue := s.queue + [Clear])
      case Turn => if s.queue == [] then s else RunOldest(size, s);
    t.(clock := s.clock + 1)
  }

  function Run(size: Entry -> nat, saved: seq<Entry>, schedule: seq<Call>): State
  {
    if schedule == [] then State([], 0, [Load(saved)], 0, 0)
    else Step(size, Run(size, saved, schedule[..|schedule| - 1]), schedule[|schedule| - 1])
  }

  class Ring {
    /** The serialized size of an entry. */
    const size: Entry -> nat

    var events: seq<Entry>
    var generation: nat
    var queue: seq<Action>

    var cleared: nat
    var base: nat
    var accepted: nat
    var evicted: nat
    var clock: nat

    function Snapshot(): State
      reads this
    {
      State(events, generation, queue, cleared, clock)
    }

    ghost predicate Valid()
      reads this
    {
      && QueueValid(queue, cleared, generation)
      && EntriesValid(events, cleared)
      && Total(events) + evicted == base + accepted
    }

    /** What was saved by an earlier worker is read before anything else happens. */
    constructor (size: Entry -> nat, saved: seq<Entry>)
      requires FromStorage(saved)
      ensures Valid() && Snapshot() == Run(size, saved, []) && this.size == size
    {
      this.size := size;
      events, generation, queue := [], 0, [Load(saved)];
      cleared, base, accepted, evicted, clock := 0, 0, 0, 0, 0;
      new;
      assert queue[..0] == [];
      assert Clears(queue[..0]) == 0;
    }

    /** Records of an earlier epoch are ignored; others wait their turn. */
    method Record(epoch: nat, key: Key, duration: int, at: int)
      requires Valid()
      modifies this
      ensures Valid() && Snapshot() == Step(size, old(Snapshot()), RecordCall(epoch, key, duration, at))
      ensures queue == if epoch == old(generation) then old(queue) + [Action.Record(epoch, key, duration, at, old(clock))] else old(queue)
      ensures events == old(events) && generation == old(generation) && cleared == old(cleared)
    {
      hide QueueValid, EntriesValid, Total;
      clock := clock + 1;
      if epoch != generation { return; }
      QueueGrows(queue, cleared, generation, Action.Record(epoch, key, duration, at, clock - 1));
      queue := queue + [Action.Record(epoch, key, duration, at, clock - 1)];
    }

    method Clear()
      requires Valid()
      modifies this
      ensures Valid() && Snapshot() == Step(size, old(Snapshot()), ClearCall)
      ensures queue == old(queue) + [Action.Clear] && generation == old(generation) + 1
      ensures events == old(events) && cleared == old(cleared)
    {
      hide QueueValid, EntriesValid, Total;
      clock := clock + 1;
      QueueGrows(queue, cleared, generation, Action.Clear);
      generation := generation + 1;
      queue := queue + [Action.Clear];
    }

    /** Entries leave from the old end until the ring is within its bounds. */
    method Trim()
      requires Valid()
      modifies this`events, this`evicted
      ensures Valid()
      ensures events == Trimmed(size, old(events)) && Fits(size, events)
    {
      while |events| > LIMIT || Bytes(size, events) > MAX_BYTES
        decreases |events|
        invariant Trimmed(size, events) == Trimmed(size, old(events))
        invariant Total(events) + evicted == base + accepted
        invariant EntriesValid(events, cleared)
      {
        evicted := evicted + Count(events[0]);
        events := events[1..];
      }
    }

    /** The oldest queued action runs. A record is dropped if a clear is already waiting behind it. */
    method RunNext()
      requires Valid() && queue != []
      modifies this
      ensures Valid() && Snapshot() == Step(size, old(Snapshot()), Turn)
      ensures queue == old(queue)[1..] && generation == old(generation)
      ensures match old(queue)[0] {
                case Load(saved) => events == saved && cleared == old(cleared)
                case Clear => events == [] && cleared == old(cleared) + 1
                case Record(epoch, _, _, _, _) =>
                  && cleared == old(cleared)
                  && (epoch != old(generation) ==> events == old(events) && accepted == old(accepted))
                  && (epoch == old(generation) ==>
                        && events == Trimmed(size, Merged(old(events), old(queue)[0])) && Fits(size, events)
                        && accepted == old(accepted) + 1)
              }
    {
      hide QueueValid, EntriesValid, Merged, Trimmed, Fits, Clears;
      QueueAdvances(queue, cleared, generation);
      LoadIsFirst(queue, cleared, generation);
      EmptyIsCurrent(cleared + 1);
      var action := queue[0];
      queue, clock := queue[1..], clock + 1;
      match action {
        case Load(saved) =>
          events, base, accepted, evicted := saved, Total(saved), 0, 0;
        case Clear =>
          events, base, accepted, evicted := [], 0, 0, 0;
          cleared := cleared + 1;
        case Record(epoch, _, _, _, _) =>
          if epoch != generation { return; }
          MergedAddsOne(events, action);
          MergedIsCurrent(events, cleared, action);
          events := Merged(events, action);
          accepted := accepted + 1;
          Trim();
      }
    }
  }

  // ---------------------------------------------------------------- what every run guarantees

  lemma {:induction false} RunIsValid(size: Entry -> nat, saved: seq<Entry>, schedule: seq<Call>)
    requires FromStorage(saved)
    ensures var s := Run(size, saved, schedule);
            QueueValid(s.queue, s.cleared, s.generation) && EntriesValid(s.events, s.cleared) && s.clock == |schedule|
  {
    if schedule == [] {
      assert [Load(saved)][..0] == [];
    } else {
      var before := schedule[..|schedule| - 1];
      RunIsValid(size, saved, before);
      StepKeepsValid(size, Run(size, saved, before), schedule[|schedule| - 1]);
    }
  }

  lemma EmptyIsCurrent(cleared: nat)
    ensures EntriesValid([], cleared)
  {
  }

  /** Trimming takes entries from the old end only. */
  lemma TrimmedIsCurrent(size: Entry -> nat, events: seq<Entry>, cleared: nat)
    requires EntriesValid(events, cleared)
    ensures EntriesValid(Trimmed(size, events), cleared)
  {
    var n := TrimmedIsLongestFit(size, events);
  }

  lemma TurnKeepsValid(size: Entry -> nat, s: State)
    requires QueueValid(s.queue, s.cleared, s.generation) && EntriesValid(s.events, s.cleared) && s.queue != []
    ensures var t := RunOldest(size, s); QueueValid(t.queue, t.cleared, t.generation) && EntriesValid(t.events, t.cleared)
  {
    hide QueueValid, EntriesValid, Merged, Trimmed;
    QueueAdvances(s.queue, s.cleared, s.generation);
    LoadIsFirst(s.queue, s.cleared, s.generation);
    EmptyIsCurrent(s.cleared + 1);
    if s.queue[0].Record? && s.queue[0].epoch == s.generation {
      MergedIsCurrent(s.events, s.cleared, s.queue[0]);
      TrimmedIsCurrent(size, Merged(s.events, s.queue[0]), s.cleared);
    }
  }

  lemma StepKeepsValid(size: Entry -> nat, s: State, c: Call)
    requires QueueValid(s.queue, s.cleared, s.generation) && EntriesValid(s.events, s.cleared)
    ensures var t := Step(size, s, c); QueueValid(t.queue, t.cleared, t.generation) && EntriesValid(t.events, t.cleared)
  {
    hide QueueValid, EntriesValid, Merged, Trimmed, Clears;
    match c
    case RecordCall(epoch, key, duration, at) =>
      if epoch == s.generation { QueueGrows(s.queue, s.cleared, s.generation, Record(epoch, key, duration, at, s.clock)); }
    case ClearCall => QueueGrows(s.queue, s.cleared, s.generation, Clear);
    case Turn => if s.queue != [] { TurnKeepsValid(size, s); }
  }

  /** Call `x` recorded a request with this key that began in the epoch `epoch`, while that lasted. */
  ghost predicate Recorded(size: Entry -> nat, saved: seq<Entry>, schedule: seq<Call>, x: nat, key: Key, epoch: nat)
  {
    x < |schedule| && schedule[x].RecordCall? && schedule[x].key == key && schedule[x].epoch == epoch && Run(size, saved, schedule[..x]).generation == epoch
  }

  /** After a clear, an entry stands for exactly the calls it names, all of the current epoch. */
  ghost predicate Traced(size: Entry -> nat, saved: seq<Entry>, schedule: seq<Call>, e: Entry, cleared: nat)
  {
    && (cleared > 0 ==> |e.calls| == Count(e))
    && forall i :: 0 <= i < |e.calls| ==> Recorded(size, saved, schedule, e.calls[i], e.key, cleared)
  }

  ghost predicate TracesValid(size: Entry -> nat, saved: seq<Entry>, schedule: seq<Call>, s: State)
  {
    && (forall i :: 0 <= i < |s.queue| && s.queue[i].Record? ==>
          Recorded(size, saved, schedule, s.queue[i].call, s.queue[i].key, s.queue[i].epoch))
    && (forall i :: 0 <= i < |s.events| ==> Traced(size, saved, schedule, s.events[i], s.cleared))
  }

  lemma TracesLater(size: Entry -> nat, saved: seq<Entry>, schedule: seq<Call>, c: Call, s: State)
    requires TracesValid(size, saved, schedule, s)
    ensures TracesValid(size, saved, schedule + [c], s)
  {
    forall x: nat, key, epoch | Recorded(size, saved, schedule, x, key, epoch)
      ensures Recorded(size, saved, schedule + [c], x, key, epoch)
    {
      assert (schedule + [c])[..x] == schedule[..x];
    }
  }

  lemma MergedIsTraced(size: Entry -> nat, saved: seq<Entry>, schedule: seq<Call>, events: seq<Entry>, a: Action, cleared: nat)
    requires forall i :: 0 <= i < |events| ==> Traced(size, saved, schedule, events[i], cleared)
    requires a.Record? && Recorded(size, saved, schedule, a.call, a.key, cleared)
    ensures forall i :: 0 <= i < |Merged(events, a)| ==> Traced(size, saved, schedule, Merged(events, a)[i], cleared)
  {
    hide Recorded;
    var merged := Merged(events, a);
    forall i | 0 <= i < |merged| ensures Traced(size, saved, schedule, merged[i], cleared) {
      if i < |events| { assert Traced(size, saved, schedule, events[i], cleared); }
    }
  }

  lemma QueueStaysTraced(size: Entry -> nat, saved: seq<Entry>, schedule: seq<Call>, s: State)
    requires TracesValid(size, saved, schedule, s) && s.queue != []
    ensures TracesValid(size, saved, schedule, s.(queue := s.queue[1..]))
    ensures s.queue[0].Record? ==> Recorded(size, saved, schedule, s.queue[0].call, s.queue[0].key, s.queue[0].epoch)
  {
    hide Recorded, Traced;
    forall i | 0 <= i < |s.queue| - 1 && s.queue[1..][i].Record?
      ensures Recorded(size, saved, schedule, s.queue[1..][i].call, s.queue[1..][i].key, s.queue[1..][i].epoch)
    {
      assert s.queue[1..][i] == s.queue[i + 1];
    }
  }

  lemma StoredIsTraced(size: Entry -> nat, saved: seq<Entry>, schedule: seq<Call>, queue: seq<Action>, cleared: nat, generation: nat)
    requires QueueValid(queue, cleared, generation) && queue != [] && queue[0].Load?
    ensures forall i :: 0 <= i < |queue[0].saved| ==> Traced(size, saved, schedule, queue[0].saved[i], cleared)
  {
    assert FromStorage(queue[0].saved) && cleared == 0;
    hide QueueValid;
  }

  lemma TurnKeepsTraces(size: Entry -> nat, saved: seq<Entry>, schedule: seq<Call>, s: State)
    requires TracesValid(size, saved, schedule, s) && s.queue != [] && QueueValid(s.queue, s.cleared, s.generation)
    ensures TracesValid(size, saved, schedule, RunOldest(size, s))
  {
    hide QueueValid, Recorded, Trimmed, Merged, Traced;
    QueueAdvances(s.queue, s.cleared, s.generation);
    QueueStaysTraced(size, saved, schedule, s);
    match s.queue[0]
    case Load(_) => StoredIsTraced(size, saved, schedule, s.queue, s.cleared, s.generation);
    case Clear =>
    case Record(epoch, _, _, _, _) =>
      if epoch == s.generation {
        MergedIsTraced(size, saved, schedule, s.events, s.queue[0], s.cleared);
        var n := TrimmedIsLongestFit(size, Merged(s.events, s.queue[0]));
      }
  }

  lemma {:induction false} RunIsTraced(size: Entry -> nat, saved: seq<Entry>, schedule: seq<Call>)
    requires FromStorage(saved)
    ensures TracesValid(size, saved, schedule, Run(size, saved, schedule))
  {
    if schedule != [] {
      var last := |schedule| - 1;
      var before := schedule[..last];
      var s := Run(size, saved, before);
      RunIsTraced(size, saved, before);
      RunIsValid(size, saved, before);
      TracesLater(size, saved, before, schedule[last], s);
      assert before + [schedule[last]] == schedule;
      if schedule[last].Turn? && s.queue != [] {
        TurnKeepsTraces(size, saved, schedule, s);
      } else if schedule[last].RecordCall? && schedule[last].epoch == s.generation {
        assert Recorded(size, saved, schedule, last, schedule[last].key, s.generation);
      }
      hide Recorded, QueueValid, EntriesValid;
    }
  }

  lemma {:induction false} GenerationGrows(size: Entry -> nat, saved: seq<Entry>, schedule: seq<Call>, x: nat, c: nat)
    requires x <= c <= |schedule|
    ensures Run(size, saved, schedule[..x]).generation <= Run(size, saved, schedule[..c]).generation
  {
    if x < c {
      GenerationGrows(size, saved, schedule, x, c - 1);
      assert schedule[..c][..c - 1] == schedule[..c - 1];
    }
  }

  /** Once a clear has run, whatever was queued or in flight when it was called, and however calls and
      turns interleave, every record that the ring holds is of a request that began after the call of the
      clear, was made by a later call too, and nothing comes from storage. */
  lemma OnlyLaterRecords(size: Entry -> nat, saved: seq<Entry>, schedule: seq<Call>, c: nat)
    requires FromStorage(saved) && c < |schedule| && schedule[c].ClearCall?
    requires Run(size, saved, schedule[..c + 1]).generation <= Run(size, saved, schedule).cleared
    ensures forall e, i :: e in Run(size, saved, schedule).events && 0 <= i < |e.calls| ==>
              && c < e.calls[i] < |schedule| && schedule[e.calls[i]].RecordCall? && schedule[e.calls[i]].key == e.key
              && schedule[e.calls[i]].epoch >= Run(size, saved, schedule[..c + 1]).generation
    ensures forall e :: e in Run(size, saved, schedule).events ==> |e.calls| == Count(e)
  {
    var s := Run(size, saved, schedule);
    RunIsTraced(size, saved, schedule);
    assert schedule[..c + 1][..c] == schedule[..c];
    assert Run(size, saved, schedule[..c]).generation < s.cleared;
    forall e, i | e in s.events && 0 <= i < |e.calls|
      ensures c < e.calls[i] < |schedule| && schedule[e.calls[i]].RecordCall? && schedule[e.calls[i]].key == e.key
      ensures schedule[e.calls[i]].epoch >= Run(size, saved, schedule[..c + 1]).generation
    {
      assert Traced(size, saved, schedule, e, s.cleared);
      assert Recorded(size, saved, schedule, e.calls[i], e.key, s.cleared);
      if e.calls[i] <= c { GenerationGrows(size, saved, schedule, e.calls[i], c); }
    }
    forall e | e in s.events ensures |e.calls| == Count(e) {
      assert Traced(size, saved, schedule, e, s.cleared);
    }
  }

  /** A record that began before a clear, and is still on its way when the clear is called, is never
      kept: it is either refused at once, or dropped when its turn comes. */
  lemma InFlightIsDropped(queue: seq<Action>, cleared: nat, generation: nat, p: nat, q: nat)
    requires QueueValid(queue, cleared, generation) && p < q < |queue| && queue[p].Record? && queue[q].Clear?
    ensures queue[p].epoch < generation
  {
    assert queue[p].epoch == cleared + Clears(queue[..p]);
    assert generation == cleared + Clears(queue);
    assert Clears(queue[..q + 1]) == Clears(queue[..q]) + 1 by {
      assert queue[..q + 1][..q] == queue[..q];
    }
    hide Clears, QueueValid;
    ClearsGrow(queue, p, q);
    ClearsGrow(queue, q + 1, |queue|);
    assert queue[..|queue|] == queue;
  }

  lemma {:induction false} ClearsGrow(queue: seq<Action>, p: nat, q: nat)
    requires p <= q <= |queue|
    ensures Clears(queue[..p]) <= Clears(queue[..q])
  {
    if p < q {
      ClearsGrow(queue, p, q - 1);
      assert queue[..q][..q - 1] == queue[..q - 1];
    }
  }
}

/** Read cursors over a message history (backend/src/services/chat.rs). Tables are maps, and each SQL
    statement is a function of one snapshot of them. Message ids are positive 64-bit integers. */
module ReadCursor {
  import opened Json

  const MAX_ID: int := 0x7FFF_FFFF_FFFF_FFFF

  datatype Message = Message(chat: int, published: bool, topLevel: bool, deleted: bool, hasThread: bool, membership: bool, at: int)

  type Messages = map<int, Message>
  datatype Member = Member(chat: int, uid: int)
  type Cursors = map<Member, Option<int>>

  ghost predicate IdsInRange(messages: Messages) { forall id :: id in messages ==> 0 < id <= MAX_ID }

  // ---------------------------------------------------------------- rows

  /** A row that the client can navigate to. */
  predicate Eligible(m: Message) { m.published && m.topLevel && (!m.deleted || m.hasThread) }

  function Addressable(messages: Messages, chat: int): set<int>
  {
    set id | id in messages && messages[id].chat == chat && Eligible(messages[id])
  }

  /** Rows that stay visible to a user who hides membership events. */
  function Visible(messages: Messages, chat: int): set<int>
  {
    set id | id in Addressable(messages, chat) && !messages[id].membership
  }

  function Above(ids: set<int>, bound: int): set<int> { set id | id in ids && id > bound }
  function Below(ids: set<int>, bound: int): set<int> { set id | id in ids && id < bound }

  // ---------------------------------------------------------------- ORDER BY id LIMIT 1

  function Least(ids: set<int>): (r: Option<int>)
    ensures r.None? <==> forall id :: id !in ids
    ensures r.Some? ==> r.value in ids && forall id :: id in ids ==> r.value <= id
  {
    if forall id :: id !in ids then None
    else
      HasLeast(ids);
      var least :| least in ids && forall id :: id in ids ==> least <= id;
      Some(least)
  }

  function Greatest(ids: set<int>): (r: Option<int>)
    ensures r.None? <==> forall id :: id !in ids
    ensures r.Some? ==> r.value in ids && forall id :: id in ids ==> id <= r.value
  {
    if forall id :: id !in ids then None
    else
      HasGreatest(ids);
      var greatest :| greatest in ids && forall id :: id in ids ==> id <= greatest;
      Some(greatest)
  }

  lemma {:induction false} HasLeast(ids: set<int>)
    requires exists id :: id in ids
    ensures exists least :: least in ids && forall id :: id in ids ==> least <= id
  {
    var x :| x in ids;
    var pick := x;
    if y :| y in ids - {x} {
      HasLeast(ids - {x});
      var least :| least in ids - {x} && forall id :: id in ids - {x} ==> least <= id;
      pick := if x < least then x else least;
    }
    assert pick in ids && forall id :: id in ids ==> pick <= id by {
      forall id | id in ids ensures pick <= id {
        assert id == x || id in ids - {x};
      }
    }
  }

  lemma {:induction false} HasGreatest(ids: set<int>)
    requires exists id :: id in ids
    ensures exists greatest :: greatest in ids && forall id :: id in ids ==> id <= greatest
  {
    var x :| x in ids;
    var pick := x;
    if y :| y in ids - {x} {
      HasGreatest(ids - {x});
      var greatest :| greatest in ids - {x} && forall id :: id in ids - {x} ==> id <= greatest;
      pick := if greatest < x then x else greatest;
    }
    assert pick in ids && forall id :: id in ids ==> id <= pick by {
      forall id | id in ids ensures id <= pick {
        assert id == x || id in ids - {x};
      }
    }
  }

  // ---------------------------------------------------------------- the hidden tail

  /** The statement: one probe for the next visible row, one for the last eligible row before it. */
  function HiddenTail(messages: Messages, chat: int, from: int): int
  {
    var next := Least(Above(Visible(messages, chat), from));
    var bound := if next.Some? then next.value else MAX_ID;
    var last := Greatest(Below(Above(Addressable(messages, chat), from), bound));
    if last.Some? then last.value else from
  }

  /** What the statement stands for: walk forward over eligible rows while they are hidden. */
  function Walk(messages: Messages, chat: int, from: int): int
    decreases Above(Addressable(messages, chat), from)
  {
    var next := Least(Above(Addressable(messages, chat), from));
    if next.None? || next.value in Visible(messages, chat) then from
    else
      assert next.value in Above(Addressable(messages, chat), from) && next.value !in Above(Addressable(messages, chat), next.value);
      Walk(messages, chat, next.value)
  }

  /** The rows between `from` and `to` are hidden, and the next row, if there is one, is visible. */
  ghost predicate IsHiddenTail(messages: Messages, chat: int, from: int, to: int)
  {
    && (to == from || (to > from && to in Addressable(messages, chat)))
    && (forall id :: id in Addressable(messages, chat) && from < id <= to ==> messages[id].membership)
    && (var next := Least(Above(Addressable(messages, chat), to)); next.Some? ==> next.value in Visible(messages, chat))
  }

  lemma {:induction false} WalkEndsAtTheTail(messages: Messages, chat: int, from: int)
    ensures IsHiddenTail(messages, chat, from, Walk(messages, chat, from))
    decreases Above(Addressable(messages, chat), from)
  {
    var next := Least(Above(Addressable(messages, chat), from));
    if next.Some? && next.value !in Visible(messages, chat) {
      assert next.value in Above(Addressable(messages, chat), from) && next.value !in Above(Addressable(messages, chat), next.value);
      WalkEndsAtTheTail(messages, chat, next.value);
      forall id | id in Addressable(messages, chat) && from < id <= Walk(messages, chat, from) ensures messages[id].membership {
        assert id in Above(Addressable(messages, chat), from);
      }
    }
  }

  /** There is only one such end. */
  lemma TailIsUnique(messages: Messages, chat: int, from: int, a: int, b: int)
    requires IsHiddenTail(messages, chat, from, a) && IsHiddenTail(messages, chat, from, b) && a <= b
    ensures a == b
  {
    assert b in Above(Addressable(messages, chat), a) || a == b;
  }

  /** The largest id is beyond the reach of the second probe. */
  predicate LastIdIsHidden(messages: Messages, chat: int, from: int)
  {
    (forall id :: id in Visible(messages, chat) ==> id <= from) && from < MAX_ID && MAX_ID in Addressable(messages, chat)
  }

  lemma ProbesFindTheTail(messages: Messages, chat: int, from: int)
    requires IdsInRange(messages) && !LastIdIsHidden(messages, chat, from)
    ensures IsHiddenTail(messages, chat, from, HiddenTail(messages, chat, from))
  {
    var eligible := Addressable(messages, chat);
    var to := HiddenTail(messages, chat, from);
    var next := Least(Above(Visible(messages, chat), from));
    var bound := if next.Some? then next.value else MAX_ID;
    var range := Below(Above(eligible, from), bound);
    assert forall id :: id in Visible(messages, chat) && id > from ==> id in Above(Visible(messages, chat), from);
    forall id | id in eligible && from < id <= to ensures messages[id].membership {
      assert id in Visible(messages, chat) ==> id in Above(Visible(messages, chat), from);
    }
    var after := Least(Above(eligible, to));
    if after.Some? {
      if next.Some? { assert next.value in Above(eligible, to); }
      assert after.value !in range ==> after.value >= bound;
    }
  }

  /** The two probes give what the walk gives, unless no visible row follows and the very last 64-bit
      id is a hidden row above `from`. */
  lemma ProbesRefineTheWalk(messages: Messages, chat: int, from: int)
    requires IdsInRange(messages)
    ensures HiddenTail(messages, chat, from) == Walk(messages, chat, from) <==> !LastIdIsHidden(messages, chat, from)
  {
    WalkEndsAtTheTail(messages, chat, from);
    var walked := Walk(messages, chat, from);
    if LastIdIsHidden(messages, chat, from) {
      assert MAX_ID in Above(Addressable(messages, chat), walked) || walked >= MAX_ID;
      assert HiddenTail(messages, chat, from) < MAX_ID;
    } else {
      ProbesFindTheTail(messages, chat, from);
      if walked <= HiddenTail(messages, chat, from) {
        TailIsUnique(messages, chat, from, walked, HiddenTail(messages, chat, from));
      } else {
        TailIsUnique(messages, chat, from, HiddenTail(messages, chat, from), walked);
      }
    }
  }

  /** That row is missed: the walk reaches it, and the probes stay where they are. */
  lemma LastHiddenRowIsMissed(chat: int)
    ensures var messages := map[MAX_ID := Message(chat, true, true, false, false, true, 0)];
            IdsInRange(messages) && Walk(messages, chat, 0) == MAX_ID && HiddenTail(messages, chat, 0) == 0
  {
    var messages := map[MAX_ID := Message(chat, true, true, false, false, true, 0)];
    assert Addressable(messages, chat) == {MAX_ID} && Visible(messages, chat) == {};
    assert Above({MAX_ID}, 0) == {MAX_ID} && Above({MAX_ID}, MAX_ID) == {} && Above({}, 0) == {};
    assert Below({MAX_ID}, MAX_ID) == {};
    assert Walk(messages, chat, MAX_ID) == MAX_ID;
  }

  // ---------------------------------------------------------------- marking read

  function Position(cursor: Option<int>): int { if cursor.Some? then cursor.value else 0 }

  function Confirmed(messages: Messages, chat: int, hides: bool, id: int): int
  {
    if hides then HiddenTail(messages, chat, id) else id
  }

  predicate Advances(cursor: Option<int>, id: int) { cursor.None? || cursor.value < id }

  /** The cursors after a member has confirmed `id`. */
  function Marked(cursors: Cursors, messages: Messages, who: Member, hides: bool, id: int): Cursors
  {
    var to := Confirmed(messages, who.chat, hides, id);
    if who in cursors && Advances(cursors[who], to) then cursors[who := Some(to)] else cursors
  }

  /** The rows a member has not read. */
  function Unread(messages: Messages, who: Member, hides: bool, cursor: Option<int>): set<int>
  {
    Above(if hides then Visible(messages, who.chat) else Addressable(messages, who.chat), Position(cursor))
  }

  lemma TailHidesNothing(messages: Messages, chat: int, from: int, id: int)
    requires id in Visible(messages, chat) && id > from
    ensures from <= HiddenTail(messages, chat, from) < id
  {
    assert id in Above(Visible(messages, chat), from);
  }

  /** Confirming a message never moves a cursor back, confirming it again changes nothing, and what
      stays unread is exactly what was visible above both the old cursor and the message. */
  lemma MarkingIsMonotoneAndExact(cursors: Cursors, messages: Messages, who: Member, hides: bool, id: int)
    requires IdsInRange(messages) && who in cursors
    ensures var after := Marked(cursors, messages, who, hides, id);
            && after.Keys == cursors.Keys
            && (cursors[who].Some? ==> after[who].Some? && after[who].value >= cursors[who].value)
            && Marked(after, messages, who, hides, id) == after
            && Unread(messages, who, hides, after[who]) ==
               Above(Unread(messages, who, hides, cursors[who]), id)
            && forall other :: other in cursors && other != who ==> after[other] == cursors[other]
  {
    var after := Marked(cursors, messages, who, hides, id);
    var rows := if hides then Visible(messages, who.chat) else Addressable(messages, who.chat);
    forall row | row in rows ensures row > Position(after[who]) <==> row > Position(cursors[who]) && row > id {
      if hides && row > id { TailHidesNothing(messages, who.chat, id, row); }
    }
    assert id <= Confirmed(messages, who.chat, hides, id);
  }

  // ---------------------------------------------------------------- deletion

  /** The rows of `ids` have been soft-deleted. */
  function Deleted(messages: Messages, ids: set<int>): Messages
  {
    map id | id in messages :: if id in ids then messages[id].(deleted := true) else messages[id]
  }

  /** Every cursor of the chat that stands on one of `ids` moves to the newest addressable row below. */
  function Shifted(cursors: Cursors, messages: Messages, chat: int, ids: set<int>): Cursors
  {
    map who | who in cursors ::
      if who.chat == chat && cursors[who].Some? && cursors[who].value in ids
      then Greatest(Below(Addressable(messages, chat), cursors[who].value))
      else cursors[who]
  }

  /** Deleting and shifting one message after the other, in the given order. */
  function OneByOne(cursors: Cursors, messages: Messages, chat: int, ids: seq<int>): Cursors
    decreases |ids|
  {
    if ids == [] then cursors
    else
      var last := ids[|ids| - 1];
      var rest := ids[..|ids| - 1];
      Shifted(OneByOne(cursors, messages, chat, rest), Deleted(messages, AsSet(ids)), chat, {last})
  }

  function AsSet(ids: seq<int>): set<int> { set id | id in ids }

  /** Once deleted, the row can no longer be navigated to: it has no thread, or never could be. */
  ghost predicate Vanish(messages: Messages, ids: set<int>)
  {
    forall id :: id in ids && id in messages ==> !Eligible(messages[id].(deleted := true))
  }

  lemma AddressableAfterDeletion(messages: Messages, chat: int, ids: set<int>)
    requires Vanish(messages, ids)
    ensures Addressable(Deleted(messages, ids), chat) == Addressable(messages, chat) - ids
  {
    var after := Deleted(messages, ids);
    forall id | id in messages ensures id in Addressable(after, chat) <==> id in Addressable(messages, chat) && id !in ids {
      if id in ids { assert after[id] == messages[id].(deleted := true); }
    }
  }

  /** Removing one more row, and moving on from it if it was the place arrived at. */
  lemma NewestBelow(ids: set<int>, gone: int, p: int)
    ensures Greatest(Below(ids - {gone}, p)) ==
              if Greatest(Below(ids, p)) == Some(gone) then Greatest(Below(ids - {gone}, gone)) else Greatest(Below(ids, p))
  {
    assert forall x :: x in Below(ids - {gone}, p) ==> x in Below(ids, p);
    var before := Greatest(Below(ids, p));
    var after := Greatest(Below(ids - {gone}, p));
    if before == Some(gone) {
      forall x | x in ids - {gone} ensures x < p <==> x < gone {
        assert x < p ==> x in Below(ids, p);
        assert gone in Below(ids, p);
      }
      assert Below(ids - {gone}, p) == Below(ids - {gone}, gone);
    } else if before.Some? {
      assert before.value in Below(ids - {gone}, p);
      assert after.value in Below(ids, p);
    }
  }

  /** One batched shift after all deletions gives what deleting and shifting one by one gives, in
      any order. */
  lemma {:induction false} BatchedShiftIsOneByOne(cursors: Cursors, messages: Messages, chat: int, ids: seq<int>)
    requires Vanish(messages, AsSet(ids))
    ensures OneByOne(cursors, messages, chat, ids) == Shifted(cursors, Deleted(messages, AsSet(ids)), chat, AsSet(ids))
    decreases |ids|
  {
    if ids == [] {
      assert AsSet(ids) == {};
    } else {
      var last := ids[|ids| - 1];
      var rest := ids[..|ids| - 1];
      assert ids == rest + [last];
      assert AsSet(ids) == AsSet(rest) + {last};
      BatchedShiftIsOneByOne(cursors, messages, chat, rest);
      ShiftOneMore(cursors, messages, chat, AsSet(rest), last);
    }
  }

  lemma ShiftOneMore(cursors: Cursors, messages: Messages, chat: int, done: set<int>, last: int)
    requires Vanish(messages, done + {last})
    ensures Shifted(Shifted(cursors, Deleted(messages, done), chat, done), Deleted(messages, done + {last}), chat, {last}) ==
            Shifted(cursors, Deleted(messages, done + {last}), chat, done + {last})
  {
    var before, after := Addressable(Deleted(messages, done), chat), Addressable(Deleted(messages, done + {last}), chat);
    AddressableAfterDeletion(messages, chat, done);
    AddressableAfterDeletion(messages, chat, done + {last});
    assert after == before - {last};
    forall who | who in cursors && cursors[who].Some?
      ensures Greatest(Below(after, cursors[who].value)) ==
                if Greatest(Below(before, cursors[who].value)) == Some(last) then Greatest(Below(after, last))
                else Greatest(Below(before, cursors[who].value))
    {
      NewestBelow(before, last, cursors[who].value);
    }
  }

  ghost predicate NoneDangle(cursors: Cursors, messages: Messages, chat: int)
  {
    forall who :: who in cursors && who.chat == chat && cursors[who].Some? ==> cursors[who].value in Addressable(messages, chat)
  }

  lemma ShiftLeavesNoneDangling(cursors: Cursors, before: Messages, after: Messages, chat: int, ids: set<int>)
    requires Addressable(after, chat) == Addressable(before, chat) - ids && NoneDangle(cursors, before, chat)
    ensures NoneDangle(Shifted(cursors, after, chat, ids), after, chat)
  {
  }

  /** If no cursor dangled before the deletion, none does after the shift. */
  lemma NoCursorDangles(cursors: Cursors, messages: Messages, chat: int, ids: set<int>)
    requires Vanish(messages, ids) && NoneDangle(cursors, messages, chat)
    ensures NoneDangle(Shifted(cursors, Deleted(messages, ids), chat, ids), Deleted(messages, ids), chat)
  {
    AddressableAfterDeletion(messages, chat, ids);
    ShiftLeavesNoneDangling(cursors, messages, Deleted(messages, ids), chat, ids);
  }

  /** No member's set of surviving unread rows changes, whichever of the surviving rows count as
      unread for them, and also where the cursor becomes NULL. */
  lemma SurvivingUnreadIsUnchanged(cursors: Cursors, messages: Messages, who: Member, ids: set<int>, counted: set<int>)
    requires Vanish(messages, ids) && IdsInRange(messages) && who in cursors
    requires counted <= Addressable(Deleted(messages, ids), who.chat)
    ensures var after := Shifted(cursors, Deleted(messages, ids), who.chat, ids);
            Above(counted, Position(after[who])) == Above(counted, Position(cursors[who]))
  {
    AddressableAfterDeletion(messages, who.chat, ids);
    var left := Addressable(Deleted(messages, ids), who.chat);
    if cursors[who].Some? && cursors[who].value in ids {
      var p := cursors[who].value;
      var q := Greatest(Below(left, p));
      forall row | row in counted ensures row > Position(q) <==> row > p {
        if row < p { assert row in Below(left, p); }
      }
    }
  }

  // ---------------------------------------------------------------- a deletion as a whole

  /** The rows of `ids` are soft-deleted, and the roots in `ended` have lost their last reply. */
  function Reconciled(messages: Messages, ids: set<int>, ended: set<int>): Messages
  {
    map id | id in messages ::
      messages[id].(deleted := messages[id].deleted || id in ids, hasThread := messages[id].hasThread && id !in ended)
  }

  /** The rows of the selection that can no longer be navigated to. */
  function Hidden(after: Messages, selection: set<int>): set<int>
  {
    set id | id in selection && id in after && after[id].deleted && !after[id].hasThread
  }

  lemma ReconciledHides(messages: Messages, chat: int, ids: set<int>, ended: set<int>)
    ensures var after := Reconciled(messages, ids, ended);
            Addressable(after, chat) == Addressable(messages, chat) - Hidden(after, ids + ended)
  {
    var after := Reconciled(messages, ids, ended);
    forall id | id in messages ensures id in Addressable(after, chat) <==> id in Addressable(messages, chat) && id !in Hidden(after, ids + ended) {
      assert after[id] == messages[id].(deleted := messages[id].deleted || id in ids, hasThread := messages[id].hasThread && id !in ended);
    }
  }

  datatype Latest = Latest(id: int, at: int)

  /** Rows that may be a group's latest message. */
  function Live(messages: Messages, chat: int): set<int>
  {
    set id | id in messages && messages[id].chat == chat && !messages[id].deleted && messages[id].published && messages[id].topLevel
  }

  /** What the group should name: its newest live top-level message, and when it was sent. */
  predicate IsLatest(latest: Option<Latest>, messages: Messages, chat: int)
  {
    match latest
    case None => forall id :: id !in Live(messages, chat)
    case Some(Latest(newest, at)) =>
      newest in Live(messages, chat) && at == messages[newest].at && forall id :: id in Live(messages, chat) ==> id <= newest
  }

  /** A latest message that is not deleted stays the latest. */
  lemma LatestStays(latest: Option<Latest>, messages: Messages, chat: int, ids: set<int>, ended: set<int>)
    requires IsLatest(latest, messages, chat) && (latest.Some? ==> latest.value.id !in ids)
    ensures IsLatest(latest, Reconciled(messages, ids, ended), chat)
  {
    assert forall id :: id in Live(Reconciled(messages, ids, ended), chat) ==> id in Live(messages, chat);
  }

  // ---------------------------------------------------------------- the tables

  class Store {
    var messages: Messages
    var cursors: Cursors
    var lastMessage: map<int, Option<Latest>>

    constructor (messages: Messages, cursors: Cursors, lastMessage: map<int, Option<Latest>>)
      ensures this.messages == messages && this.cursors == cursors && this.lastMessage == lastMessage
    {
      this.messages, this.cursors, this.lastMessage := messages, cursors, lastMessage;
    }

    method MarkChatAsRead(who: Member, hides: bool, id: int) returns (advanced: bool)
      modifies this`cursors
      ensures cursors == Marked(old(cursors), messages, who, hides, id)
      ensures advanced <==> cursors != old(cursors)
    {
      var to := if hides then HiddenTail(messages, who.chat, id) else id;
      advanced := who in cursors && (cursors[who].None? || cursors[who].value < to);
      if advanced {
        assert cursors[who] != Some(to);
        cursors := cursors[who := Some(to)];
      }
    }

    /** Returns how many cursors stood on one of the deleted messages. */
    method ShiftChatReadPointersOnDelete(chat: int, ids: set<int>) returns (moved: nat)
      modifies this`cursors
      ensures cursors == Shifted(old(cursors), messages, chat, ids)
      ensures moved == |set who | who in old(cursors) && who.chat == chat && old(cursors)[who].Some? && old(cursors)[who].value in ids|
    {
      if ids == {} {
        assert Shifted(cursors, messages, chat, {}) == cursors;
        assert (set who | who in cursors && who.chat == chat && cursors[who].Some? && cursors[who].value in ids) == {};
        return 0;
      }
      var anchored := set who | who in cursors && who.chat == chat && cursors[who].Some? && cursors[who].value in ids;
      moved := |anchored|;
      cursors := map who | who in cursors ::
        if who in anchored then Greatest(Below(Addressable(messages, chat), cursors[who].value)) else cursors[who];
    }

    /** The latest live message of the group, and when it was sent, or none. */
    method RecalculateGroupLastMessage(chat: int)
      modifies this`lastMessage
      ensures lastMessage.Keys == old(lastMessage).Keys
      ensures forall other :: other in lastMessage && other != chat ==> lastMessage[other] == old(lastMessage)[other]
      ensures chat in lastMessage ==> IsLatest(lastMessage[chat], messages, chat)
    {
      var newest := Greatest(Live(messages, chat));
      if chat in lastMessage {
        lastMessage := lastMessage[chat := if newest.None? then None else Some(Latest(newest.value, messages[newest.value].at))];
      }
    }

    /** A deletion as the service reconciles it: the rows are marked, the cursors on those that have
        become unreachable are shifted, and the latest message is looked up again if it was deleted. */
    method ReconcileDeletions(chat: int, ids: set<int>, ended: set<int>)
      modifies this
      ensures messages == Reconciled(old(messages), ids, ended)
      ensures cursors == Shifted(old(cursors), messages, chat, Hidden(messages, ids + ended))
      ensures NoneDangle(old(cursors), old(messages), chat) ==> NoneDangle(cursors, messages, chat)
      ensures chat in old(lastMessage) && IsLatest(old(lastMessage)[chat], old(messages), chat) ==>
                chat in lastMessage && IsLatest(lastMessage[chat], messages, chat)
    {
      ReconciledHides(messages, chat, ids, ended);
      ghost var before := messages;
      messages := Reconciled(messages, ids, ended);
      var hidden := Hidden(messages, ids + ended);
      if hidden != {} {
        var moved := ShiftChatReadPointersOnDelete(chat, hidden);
      } else {
        assert Shifted(cursors, messages, chat, {}) == cursors;
      }
      if NoneDangle(old(cursors), before, chat) { ShiftLeavesNoneDangling(old(cursors), before, messages, chat, hidden); }
      if chat in lastMessage && lastMessage[chat].Some? && lastMessage[chat].value.id in ids {
        RecalculateGroupLastMessage(chat);
      } else if chat in lastMessage && IsLatest(lastMessage[chat], before, chat) {
        LatestStays(lastMessage[chat], before, chat, ids, ended);
      }
    }
  }
}

/** Keyset pagination of the chat list (backend/src/services/chat_list.rs): chats are ordered by the
    time of their last visible message, newest first and chats without one last, ties broken by the
    larger id; a page starts strictly after its cursor row. */
module ChatList {
  import opened Json
  import ReadCursor

  datatype Message = Message(chat: int, live: bool, membership: bool, createdAt: int)
  datatype Chat = Chat(id: int, isGroup: bool, eventsAllowed: bool, archived: bool, lastMessageId: Option<int>)

  /** A row of the query: the chat, and the message that the join finds for it. */
  datatype Row = Row(id: int, archived: bool, last: Option<int>, at: Option<int>)

  // ---------------------------------------------------------------- the snapshot

  predicate HidesEvents(c: Chat, hiding: bool) { c.isGroup && (hiding || !c.eventsAllowed) }

  /** Live, published, top-level messages of a chat that are not membership events. */
  function Shown(messages: map<int, Message>, chat: int): set<int>
  {
    set id | id in messages && messages[id].chat == chat && messages[id].live && !messages[id].membership
  }

  function LastId(c: Chat, messages: map<int, Message>, hiding: bool): Option<int>
  {
    if HidesEvents(c, hiding) then ReadCursor.Greatest(Shown(messages, c.id)) else c.lastMessageId
  }

  function RowOf(c: Chat, messages: map<int, Message>, hiding: bool): Row
  {
    var last := LastId(c, messages, hiding);
    if last.Some? && last.value in messages then Row(c.id, c.archived, last, Some(messages[last.value].createdAt))
    else Row(c.id, c.archived, None, None)
  }

  function Rows(chats: seq<Chat>, messages: map<int, Message>, hiding: bool): seq<Row>
  {
    seq(|chats|, i requires 0 <= i < |chats| => RowOf(chats[i], messages, hiding))
  }

  predicate DistinctIds(rows: seq<Row>)
  {
    forall i, j :: 0 <= i < j < |rows| ==> rows[i].id != rows[j].id
  }

  // ---------------------------------------------------------------- the order

  predicate Precedes(a: Row, b: Row)
  {
    if a.at.Some? && b.at.Some? then a.at.value > b.at.value || (a.at == b.at && a.id > b.id)
    else if a.at == b.at then a.id > b.id
    else a.at.Some?
  }

  /** The filter of the statement: two variants, by whether the cursor row has a time. */
  predicate PastCursor(cursor: Row, row: Row)
  {
    match cursor.at
    case Some(at) => row.at.None? || row.at.value < at || (row.at.value == at && row.id < cursor.id)
    case None => row.at.None? && row.id < cursor.id
  }

  predicate Sorted(rows: seq<Row>)
  {
    forall i, j :: 0 <= i < j < |rows| ==> Precedes(rows[i], rows[j])
  }

  function Insert(row: Row, sorted: seq<Row>): seq<Row>
  {
    if sorted == [] then [row]
    else if Precedes(row, sorted[0]) then [row] + sorted
    else [sorted[0]] + Insert(row, sorted[1..])
  }

  function Sort(rows: seq<Row>): seq<Row>
  {
    if rows == [] then [] else Insert(rows[0], Sort(rows[1..]))
  }

  function Filter(rows: seq<Row>, archived: bool, cursor: Option<Row>): seq<Row>
  {
    if rows == [] then []
    else
      (if rows[0].archived == archived && (cursor.None? || PastCursor(cursor.value, rows[0])) then [rows[0]] else []) +
      Filter(rows[1..], archived, cursor)
  }

  function Take(rows: seq<Row>, limit: nat): seq<Row> { if |rows| <= limit then rows else rows[..limit] }

  function Find(rows: seq<Row>, id: int): Option<Row>
  {
    if rows == [] then None else if rows[0].id == id then Some(rows[0]) else Find(rows[1..], id)
  }

  /** One page. The cursor row is looked up among all chats of the user, archived or not; a cursor
      that is not there gives an empty page. */
  function Page(rows: seq<Row>, archived: bool, after: Option<int>, limit: nat): seq<Row>
  {
    if after.None? then Take(Sort(Filter(rows, archived, None)), limit)
    else
      var cursor := Find(rows, after.value);
      if cursor.None? then [] else Take(Sort(Filter(rows, archived, cursor)), limit)
  }

  // ---------------------------------------------------------------- sorting

  lemma {:induction false} InsertMeans(row: Row, sorted: seq<Row>)
    requires Sorted(sorted) && forall r :: r in sorted ==> r.id != row.id
    ensures Sorted(Insert(row, sorted))
    ensures forall r :: r in Insert(row, sorted) <==> r == row || r in sorted
    ensures |Insert(row, sorted)| == |sorted| + 1
  {
    if sorted != [] {
      assert sorted == [sorted[0]] + sorted[1..];
      if !Precedes(row, sorted[0]) {
        InsertMeans(row, sorted[1..]);
        forall r | r in Insert(row, sorted[1..]) ensures Precedes(sorted[0], r) {
        }
      }
    }
  }

  lemma {:induction false} SortMeans(rows: seq<Row>)
    requires DistinctIds(rows)
    ensures Sorted(Sort(rows)) && |Sort(rows)| == |rows|
    ensures forall r :: r in Sort(rows) <==> r in rows
  {
    if rows != [] {
      assert rows == [rows[0]] + rows[1..];
      assert DistinctIds(rows[1..]);
      SortMeans(rows[1..]);
      forall r | r in Sort(rows[1..]) ensures r.id != rows[0].id {
        assert r in rows[1..];
      }
      InsertMeans(rows[0], Sort(rows[1..]));
    }
  }

  /** A sorted sequence is determined by its elements. */
  lemma {:induction false} SortedIsUnique(a: seq<Row>, b: seq<Row>)
    requires Sorted(a) && Sorted(b) && forall r :: r in a <==> r in b
    ensures a == b
  {
    if a == [] {
      assert forall i :: 0 <= i < |b| ==> b[i] in b;
    } else {
      assert a[0] in b && b != [];
      assert b[0] in a;
      assert a[0] == b[0];
      forall r ensures r in a[1..] <==> r in b[1..] {
        assert a == [a[0]] + a[1..] && b == [b[0]] + b[1..];
        if r in a[1..] { assert r != a[0]; assert r in b; }
        if r in b[1..] { assert r != b[0]; assert r in a; }
      }
      SortedIsUnique(a[1..], b[1..]);
    }
  }

  lemma {:induction false} FilterMeans(rows: seq<Row>, archived: bool, cursor: Option<Row>)
    ensures forall r :: r in Filter(rows, archived, cursor) <==>
              r in rows && r.archived == archived && (cursor.None? || PastCursor(cursor.value, r))
    ensures DistinctIds(rows) ==> DistinctIds(Filter(rows, archived, cursor))
  {
    if rows != [] {
      assert rows == [rows[0]] + rows[1..];
      FilterMeans(rows[1..], archived, cursor);
      if DistinctIds(rows) {
        assert DistinctIds(rows[1..]);
        forall r | r in Filter(rows[1..], archived, cursor) ensures r.id != rows[0].id {
          assert r in rows[1..];
        }
      }
    }
  }

  /** The cursor filter keeps exactly the rows that the order puts after the cursor row. */
  lemma CursorFollowsTheOrder(cursor: Row, row: Row)
    ensures PastCursor(cursor, row) <==> Precedes(cursor, row)
  {
  }

  // ---------------------------------------------------------------- pages

  lemma LaterInOrder(rows: seq<Row>, k: nat, r: Row)
    requires Sorted(rows) && k < |rows|
    ensures r in rows[k + 1..] <==> r in rows && Precedes(rows[k], r)
  {
    if r in rows && Precedes(rows[k], r) {
      var i :| 0 <= i < |rows| && rows[i] == r;
      assert i > k;
      assert rows[k + 1..][i - k - 1] == r;
    }
    if r in rows[k + 1..] {
      var i :| 0 <= i < |rows| - k - 1 && rows[k + 1..][i] == r;
      assert rows[k + 1 + i] == r;
    }
  }

  /** What comes after a listed row in the full list is what the next page draws from. */
  lemma RestOfList(rows: seq<Row>, archived: bool, k: nat)
    requires DistinctIds(rows) && k < |Sort(Filter(rows, archived, None))|
    ensures var full := Sort(Filter(rows, archived, None));
            Sort(Filter(rows, archived, Some(full[k]))) == full[k + 1..]
  {
    FilterMeans(rows, archived, None);
    SortMeans(Filter(rows, archived, None));
    var full := Sort(Filter(rows, archived, None));
    var cursor := Some(full[k]);
    FilterMeans(rows, archived, cursor);
    SortMeans(Filter(rows, archived, cursor));
    var rest := Sort(Filter(rows, archived, cursor));
    forall r ensures r in rest <==> r in full[k + 1..] {
      hide Filter, Sort, DistinctIds, Sorted;
      CursorFollowsTheOrder(full[k], r);
      LaterInOrder(full, k, r);
    }
    SortedIsUnique(rest, full[k + 1..]);
  }

  lemma {:induction false} FindsItself(rows: seq<Row>, row: Row)
    requires DistinctIds(rows) && row in rows
    ensures Find(rows, row.id) == Some(row)
  {
    assert rows == [rows[0]] + rows[1..];
    if rows[0] != row {
      assert row in rows[1..];
      assert DistinctIds(rows[1..]);
      FindsItself(rows[1..], row);
    }
  }

  /** All pages from a cursor on, page `p` of size `limits(p)`, following the last id of each. */
  function Pages(rows: seq<Row>, archived: bool, after: Option<int>, limits: nat -> nat, p: nat, fuel: nat): seq<Row>
    decreases fuel
  {
    var page := Page(rows, archived, after, limits(p));
    if page == [] || fuel == 0 then []
    else page + Pages(rows, archived, Some(page[|page| - 1].id), limits, p + 1, fuel - 1)
  }

  /** The list that the pages are taken from. */
  function Full(rows: seq<Row>, archived: bool): seq<Row> { Sort(Filter(rows, archived, None)) }

  lemma FullMeans(rows: seq<Row>, archived: bool)
    requires DistinctIds(rows)
    ensures Sorted(Full(rows, archived)) && |Full(rows, archived)| <= |rows|
    ensures forall r :: r in Full(rows, archived) <==> r in rows && r.archived == archived
  {
    FilterMeans(rows, archived, None);
    SortMeans(Filter(rows, archived, None));
    FilterIsShorter(rows, archived);
  }

  lemma PageAfter(rows: seq<Row>, archived: bool, k: nat, limit: nat)
    requires DistinctIds(rows) && k < |Full(rows, archived)|
    ensures Page(rows, archived, Some(Full(rows, archived)[k].id), limit) == Take(Full(rows, archived)[k + 1..], limit)
  {
    FullMeans(rows, archived);
    assert Full(rows, archived)[k] in Full(rows, archived);
    FindsItself(rows, Full(rows, archived)[k]);
    RestOfList(rows, archived, k);
  }

  lemma TakeMeans(full: seq<Row>, k: nat, limit: nat)
    requires k <= |full| && limit > 0
    ensures var page := Take(full[k..], limit);
            && k + |page| <= |full|
            && (page == [] <==> k == |full|)
            && (page != [] ==> page[|page| - 1] == full[k + |page| - 1] && page + full[k + |page|..] == full[k..])
  {
  }

  lemma {:induction false} PagesFrom(rows: seq<Row>, archived: bool, k: nat, limits: nat -> nat, p: nat, fuel: nat)
    requires DistinctIds(rows) && forall q :: limits(q) > 0
    requires k < |Full(rows, archived)| <= k + fuel
    ensures Pages(rows, archived, Some(Full(rows, archived)[k].id), limits, p, fuel) == Full(rows, archived)[k + 1..]
    decreases fuel
  {
    hide Full, Page, Take, DistinctIds;
    var full := Full(rows, archived);
    PageAfter(rows, archived, k, limits(p));
    TakeMeans(full, k + 1, limits(p));
    var page := Take(full[k + 1..], limits(p));
    if page != [] {
      PagesFrom(rows, archived, k + |page|, limits, p + 1, fuel - 1);
    }
  }

  lemma FirstPage(rows: seq<Row>, archived: bool, limit: nat)
    ensures Page(rows, archived, None, limit) == Take(Full(rows, archived)[0..], limit)
  {
  }

  lemma PagesFromStart(rows: seq<Row>, archived: bool, limits: nat -> nat, fuel: nat)
    requires DistinctIds(rows) && (forall q :: limits(q) > 0) && fuel > |Full(rows, archived)|
    ensures Pages(rows, archived, None, limits, 0, fuel) == Full(rows, archived)
  {
    hide Full, Page, Take, DistinctIds;
    var full := Full(rows, archived);
    FirstPage(rows, archived, limits(0));
    TakeMeans(full, 0, limits(0));
    var page := Take(full[0..], limits(0));
    if page != [] {
      PagesFrom(rows, archived, |page| - 1, limits, 1, fuel - 1);
    }
  }

  /** On a fixed snapshot, following the cursors with any limits of at least one gives the full list
      in order, without gap or repetition. */
  lemma PagesMakeTheList(rows: seq<Row>, archived: bool, limits: nat -> nat, fuel: nat)
    requires DistinctIds(rows) && (forall q :: limits(q) > 0) && fuel > |rows|
    ensures Pages(rows, archived, None, limits, 0, fuel) == Full(rows, archived)
    ensures Sorted(Full(rows, archived))
    ensures forall r :: r in Full(rows, archived) <==> r in rows && r.archived == archived
  {
    FullMeans(rows, archived);
    hide Full, DistinctIds, Sorted, Pages;
    PagesFromStart(rows, archived, limits, fuel);
  }

  lemma {:induction false} FilterIsShorter(rows: seq<Row>, archived: bool)
    ensures |Filter(rows, archived, None)| <= |rows|
  {
    if rows != [] { FilterIsShorter(rows[1..], archived); }
  }

  // ---------------------------------------------------------------- hidden events

  /** New messages that are membership events; chats that hiding them may point at them or not. */
  ghost predicate OnlyHiddenEvents(chats: seq<Chat>, later: seq<Chat>, messages: map<int, Message>, added: map<int, Message>, hiding: bool)
  {
    && added.Keys !! messages.Keys && (forall id :: id in added ==> added[id].membership)
    && |later| == |chats|
    && forall i :: 0 <= i < |chats| ==>
         if HidesEvents(chats[i], hiding) then later[i] == chats[i].(lastMessageId := later[i].lastMessageId)
         else later[i] == chats[i] && (chats[i].lastMessageId.Some? ==> chats[i].lastMessageId.value !in added)
  }

  lemma SameShown(messages: map<int, Message>, added: map<int, Message>, chat: int)
    requires added.Keys !! messages.Keys && forall id :: id in added ==> added[id].membership
    ensures Shown(messages + added, chat) == Shown(messages, chat)
  {
    var all := messages + added;
    forall id ensures id in Shown(all, chat) <==> id in Shown(messages, chat) {
      if id in added { assert all[id] == added[id]; }
    }
  }

  /** Membership events that are hidden change no page: not its rows, their order, or its cursors. */
  lemma HiddenEventsChangeNoPage(chats: seq<Chat>, later: seq<Chat>, messages: map<int, Message>, added: map<int, Message>,
                                 hiding: bool, archived: bool, after: Option<int>, limit: nat)
    requires OnlyHiddenEvents(chats, later, messages, added, hiding)
    ensures Page(Rows(later, messages + added, hiding), archived, after, limit) == Page(Rows(chats, messages, hiding), archived, after, limit)
  {
    forall i | 0 <= i < |chats| ensures RowOf(later[i], messages + added, hiding) == RowOf(chats[i], messages, hiding) {
      SameShown(messages, added, chats[i].id);
      GreatestIsKnown(messages, chats[i].id);
    }
    assert Rows(later, messages + added, hiding) == Rows(chats, messages, hiding);
  }

  lemma GreatestIsKnown(messages: map<int, Message>, chat: int)
    ensures var last := ReadCursor.Greatest(Shown(messages, chat)); last.Some? ==> last.value in messages
  {
  }
}

/**
  The two history sync tables as values (pkg/connector/wadb/conversation.go, message.go) and what
  storing a history sync does to them (handleWAHistorySync in pkg/connector/backfill.go).
  A table is a map from its primary key. The bridge_id column is constant and left out, and so is
  inserted_time, which nothing reads back.
 */
module HistoryTables {
  import opened Wrappers

  type Login = string
  type ChatID = string

  datatype ChatKey = ChatKey(login: Login, chat: ChatID)

  // A row of whatsapp_history_sync_conversation; None is NULL.
  datatype Conversation = Conversation(
    lastMessage: Option<int>, archived: Option<bool>, pinned: Option<bool>, muteEnd: Option<int>,
    endOfHistory: Option<int>, expiration: Option<int>, settingTS: Option<int>,
    markedUnread: Option<bool>, unreadCount: Option<int>, syncedLogin: Option<int>)

  datatype MessageKey = MessageKey(login: Login, chat: ChatID, sender: string, id: string)

  datatype MessageRow = MessageRow(timestamp: int, data: string)

  // HistorySyncMessageTuple, with the sender already reduced to its non-device form.
  datatype Tuple = Tuple(sender: string, id: string, timestamp: int, data: string)

  datatype Db = Db(conversations: map<ChatKey, Conversation>, messages: map<MessageKey, MessageRow>)

  /** The foreign key from messages to conversations. */
  predicate ForeignKey(db: Db) {
    forall k :: k in db.messages ==> ChatKey(k.login, k.chat) in db.conversations
  }

  // --- INSERT ... ON CONFLICT DO NOTHING ---

  function KeyOf(c: ChatKey, t: Tuple): MessageKey {
    MessageKey(c.login, c.chat, t.sender, t.id)
  }

  function Insert(table: map<MessageKey, MessageRow>, c: ChatKey, t: Tuple): map<MessageKey, MessageRow> {
    if KeyOf(c, t) in table then table else table[KeyOf(c, t) := MessageRow(t.timestamp, t.data)]
  }

  function InsertAll(table: map<MessageKey, MessageRow>, c: ChatKey, ts: seq<Tuple>): map<MessageKey, MessageRow> {
    if ts == [] then table else Insert(InsertAll(table, c, ts[..|ts| - 1]), c, ts[|ts| - 1])
  }

  /** Inserting in two batches is inserting once. */
  lemma {:induction false} InsertAllSplit(table: map<MessageKey, MessageRow>, c: ChatKey, a: seq<Tuple>, b: seq<Tuple>)
    ensures InsertAll(table, c, a + b) == InsertAll(InsertAll(table, c, a), c, b)
    decreases |b|
  {
    if b == [] {
      assert a + b == a;
    } else {
      assert (a + b)[..|a + b| - 1] == a + b[..|b| - 1];
      InsertAllSplit(table, c, a, b[..|b| - 1]);
    }
  }

  /** What the insert leaves behind: stored rows untouched, a row for each tuple's key, nothing else. */
  lemma {:induction false} InsertAllKeys(table: map<MessageKey, MessageRow>, c: ChatKey, ts: seq<Tuple>)
    ensures forall i :: 0 <= i < |ts| ==> KeyOf(c, ts[i]) in InsertAll(table, c, ts)
    ensures forall k :: k in InsertAll(table, c, ts) && k !in table ==>
              exists i :: 0 <= i < |ts| && k == KeyOf(c, ts[i])
    ensures forall k :: k in table ==> k in InsertAll(table, c, ts) && InsertAll(table, c, ts)[k] == table[k]
    decreases |ts|
  {
    if ts != [] {
      var init := ts[..|ts| - 1];
      InsertAllKeys(table, c, init);
      forall k | k in InsertAll(table, c, ts) && k !in table ensures exists i :: 0 <= i < |ts| && k == KeyOf(c, ts[i]) {
        if k in InsertAll(table, c, init) {
          var i :| 0 <= i < |init| && k == KeyOf(c, init[i]);
          assert k == KeyOf(c, ts[i]);
        }
      }
      assert forall i :: 0 <= i < |init| ==> ts[i] == init[i];
    }
  }

  predicate FirstOfItsKey(c: ChatKey, ts: seq<Tuple>, i: nat)
    requires i < |ts|
  {
    forall j :: 0 <= j < i ==> KeyOf(c, ts[j]) != KeyOf(c, ts[i])
  }

  /** A new key gets the first tuple that carries it. */
  lemma {:induction false} InsertAllFirst(table: map<MessageKey, MessageRow>, c: ChatKey, ts: seq<Tuple>, i: nat)
    requires i < |ts| && FirstOfItsKey(c, ts, i) && KeyOf(c, ts[i]) !in table
    ensures KeyOf(c, ts[i]) in InsertAll(table, c, ts)
    ensures InsertAll(table, c, ts)[KeyOf(c, ts[i])] == MessageRow(ts[i].timestamp, ts[i].data)
    decreases |ts|
  {
    var init := ts[..|ts| - 1];
    if i < |init| {
      assert FirstOfItsKey(c, init, i);
      InsertAllFirst(table, c, init, i);
    } else {
      InsertAllKeys(table, c, init);
    }
  }

  /** Once every key is present, the insert changes nothing. */
  lemma {:induction false} InsertAllPresent(table: map<MessageKey, MessageRow>, c: ChatKey, ts: seq<Tuple>)
    requires forall i :: 0 <= i < |ts| ==> KeyOf(c, ts[i]) in table
    ensures InsertAll(table, c, ts) == table
    decreases |ts|
  {
    if ts != [] {
      InsertAllPresent(table, c, ts[..|ts| - 1]);
    }
  }

  // --- The conversation upsert ---

  function Coalesce<T>(excluded: Option<T>, stored: Option<T>): Option<T> {
    if excluded.Some? then excluded else stored
  }

  /** The CASE expression for last_message_timestamp; comparing with NULL is not true. */
  function Later(stored: Option<int>, excluded: Option<int>): Option<int> {
    if stored.None? || (excluded.Some? && excluded.value > stored.value) then excluded else stored
  }

  /** The DO UPDATE branch. Its SET list has no synced_login_ts. */
  function Merge(row: Conversation, e: Conversation): Conversation {
    Conversation(
      Later(row.lastMessage, e.lastMessage),
      Coalesce(e.archived, row.archived), Coalesce(e.pinned, row.pinned), Coalesce(e.muteEnd, row.muteEnd),
      Coalesce(e.endOfHistory, row.endOfHistory), Coalesce(e.expiration, row.expiration),
      Coalesce(e.settingTS, row.settingTS), Coalesce(e.markedUnread, row.markedUnread),
      Coalesce(e.unreadCount, row.unreadCount), row.syncedLogin)
  }

  function MergeAll(row: Conversation, es: seq<Conversation>): Conversation {
    if es == [] then row else Merge(MergeAll(row, es[..|es| - 1]), es[|es| - 1])
  }

  lemma MergeAssociates(a: Conversation, b: Conversation, c: Conversation)
    ensures Merge(Merge(a, b), c) == Merge(a, Merge(b, c))
    ensures Merge(a, a) == a
  {
  }

  /** A sequence of upserts acts as one. */
  lemma {:induction false} MergeAllFactors(row: Conversation, es: seq<Conversation>)
    requires es != []
    ensures MergeAll(row, es) == Merge(row, MergeAll(es[0], es[1..]))
    decreases |es|
  {
    var init, last := es[..|es| - 1], es[|es| - 1];
    if init == [] {
      assert MergeAll(row, init) == row;
    } else {
      MergeAllFactors(row, init);
      assert es[1..][..|es[1..]| - 1] == init[1..];
      MergeAssociates(row, MergeAll(es[0], init[1..]), last);
    }
  }

  /** Upserting the same rows again, in the same order, changes nothing. */
  lemma MergeAllAgain(row: Conversation, es: seq<Conversation>)
    ensures MergeAll(MergeAll(row, es), es) == MergeAll(row, es)
  {
    if es != [] {
      var m := MergeAll(es[0], es[1..]);
      MergeAllFactors(row, es);
      MergeAllFactors(Merge(row, m), es);
      MergeAssociates(row, m, m);
      MergeAssociates(m, m, m);
    }
  }

  // Independent readings of what a column should hold after `xs` were written in order.

  predicate IsLastNonNull<T(==)>(xs: seq<Option<T>>, r: Option<T>) {
    if r.None? then forall i :: 0 <= i < |xs| ==> xs[i].None?
    else exists i :: 0 <= i < |xs| && xs[i] == r && forall j :: i < j < |xs| ==> xs[j].None?
  }

  predicate IsMaxNonNull(xs: seq<Option<int>>, r: Option<int>) {
    if r.None? then forall i :: 0 <= i < |xs| ==> xs[i].None?
    else r in xs && forall i :: 0 <= i < |xs| && xs[i].Some? ==> xs[i].value <= r.value
  }

  function Column<T>(row: Conversation, es: seq<Conversation>, f: Conversation -> Option<T>): seq<Option<T>> {
    [f(row)] + seq(|es|, i requires 0 <= i < |es| => f(es[i]))
  }

  lemma LastNonNullExtends<T>(xs: seq<Option<T>>, r: Option<T>, x: Option<T>)
    requires IsLastNonNull(xs, r)
    ensures IsLastNonNull(xs + [x], Coalesce(x, r))
  {
    var ys := xs + [x];
    if x.Some? {
      assert ys[|xs|] == x;
    } else if r.Some? {
      var i :| 0 <= i < |xs| && xs[i] == r && forall j :: i < j < |xs| ==> xs[j].None?;
      assert ys[i] == r;
    }
  }

  lemma ColumnExtends<T>(row: Conversation, es: seq<Conversation>, f: Conversation -> Option<T>)
    requires es != []
    ensures Column(row, es, f) == Column(row, es[..|es| - 1], f) + [f(es[|es| - 1])]
  {
  }

  lemma {:induction false} CoalescedColumn<T>(row: Conversation, es: seq<Conversation>, f: Conversation -> Option<T>)
    requires forall a, b :: f(Merge(a, b)) == Coalesce(f(b), f(a))
    ensures IsLastNonNull(Column(row, es, f), f(MergeAll(row, es)))
    decreases |es|
  {
    if es == [] {
      assert Column(row, es, f)[0] == f(MergeAll(row, es));
    } else {
      var init, last := es[..|es| - 1], es[|es| - 1];
      CoalescedColumn(row, init, f);
      ColumnExtends(row, es, f);
      LastNonNullExtends(Column(row, init, f), f(MergeAll(row, init)), f(last));
    }
  }

  lemma {:induction false} LastMessageColumn(row: Conversation, es: seq<Conversation>)
    ensures IsMaxNonNull(Column(row, es, (c: Conversation) => c.lastMessage), MergeAll(row, es).lastMessage)
    decreases |es|
  {
    var f := (c: Conversation) => c.lastMessage;
    if es == [] {
      assert Column(row, es, f) == [f(row)];
    } else {
      LastMessageColumn(row, es[..|es| - 1]);
      ColumnExtends(row, es, f);
      var xs, ys := Column(row, es[..|es| - 1], f), Column(row, es, f);
      assert ys[|xs|] == f(es[|es| - 1]);
      assert forall i :: 0 <= i < |xs| ==> ys[i] == xs[i];
    }
  }

  lemma {:induction false} SyncedLoginKept(row: Conversation, es: seq<Conversation>)
    ensures MergeAll(row, es).syncedLogin == row.syncedLogin
    decreases |es|
  {
    if es != [] { SyncedLoginKept(row, es[..|es| - 1]); }
  }

  /** Across any sequence of upserts: last_message_timestamp is the greatest non-null value written,
      every coalesced column is the last non-null value written, and synced_login_ts is untouched. */
  lemma UpsertsMeaning(row: Conversation, es: seq<Conversation>)
    ensures var r := MergeAll(row, es);
            && IsMaxNonNull(Column(row, es, (c: Conversation) => c.lastMessage), r.lastMessage)
            && IsLastNonNull(Column(row, es, (c: Conversation) => c.archived), r.archived)
            && IsLastNonNull(Column(row, es, (c: Conversation) => c.pinned), r.pinned)
            && IsLastNonNull(Column(row, es, (c: Conversation) => c.muteEnd), r.muteEnd)
            && IsLastNonNull(Column(row, es, (c: Conversation) => c.endOfHistory), r.endOfHistory)
            && IsLastNonNull(Column(row, es, (c: Conversation) => c.expiration), r.expiration)
            && IsLastNonNull(Column(row, es, (c: Conversation) => c.settingTS), r.settingTS)
            && IsLastNonNull(Column(row, es, (c: Conversation) => c.markedUnread), r.markedUnread)
            && IsLastNonNull(Column(row, es, (c: Conversation) => c.unreadCount), r.unreadCount)
            && r.syncedLogin == row.syncedLogin
  {
    LastMessageColumn(row, es);
    CoalescedColumn(row, es, (c: Conversation) => c.archived);
    CoalescedColumn(row, es, (c: Conversation) => c.pinned);
    CoalescedColumn(row, es, (c: Conversation) => c.muteEnd);
    CoalescedColumn(row, es, (c: Conversation) => c.endOfHistory);
    CoalescedColumn(row, es, (c: Conversation) => c.expiration);
    CoalescedColumn(row, es, (c: Conversation) => c.settingTS);
    CoalescedColumn(row, es, (c: Conversation) => c.markedUnread);
    CoalescedColumn(row, es, (c: Conversation) => c.unreadCount);
    SyncedLoginKept(row, es);
  }
}

/**
  What storing a conversation of a history sync leaves in the tables (handleWAHistorySync in
  pkg/connector/backfill.go, NewConversation in pkg/connector/wadb/conversation.go), told by the payload.
 */
module HistoryRows {
  import opened Wrappers
  import opened HistoryTables
  import opened HistorySyncStorage

  // --- Messages ---

  /** A message worth storing: it parses, its type is not ignored, and it can be marshalled. */
  predicate IsKept(m: RawMessage) {
    m.Parsed? && !m.ignored && m.marshals
  }

  lemma {:induction false} KeptConcat(xs: seq<RawMessage>, ys: seq<RawMessage>)
    ensures Kept(xs + ys) == Kept(xs) + Kept(ys)
    decreases |ys|
  {
    if ys == [] {
      assert xs + ys == xs;
    } else {
      var init := ys[..|ys| - 1];
      KeptConcat(xs, init);
      assert (xs + ys)[..|xs + ys| - 1] == xs + init;
    }
  }

  /** The messages kept are those worth storing, in their order. */
  lemma {:induction false} KeptAreKept(ms: seq<RawMessage>, m: RawMessage, more: seq<RawMessage>)
    ensures Kept([]) == []
    ensures Kept(ms + [m] + more) == Kept(ms) + (if IsKept(m) then [m.tuple] else []) + Kept(more)
  {
    KeptConcat(ms + [m], more);
    KeptConcat(ms, [m]);
    var none: seq<RawMessage> := [];
    assert [m][..0] == none && Kept(none) == [];
  }

  lemma {:induction false} KeptHas(ms: seq<RawMessage>, i: nat)
    requires i < |ms| && IsKept(ms[i])
    ensures ms[i].tuple in Kept(ms)
  {
    KeptAreKept(ms[..i], ms[i], ms[i + 1..]);
    assert ms[..i] + [ms[i]] + ms[i + 1..] == ms;
  }

  /** The newest time of the messages that parse, kept or not. */
  predicate IsNewest(ms: seq<RawMessage>, t: Option<int>) {
    && (t.None? ==> forall i :: 0 <= i < |ms| ==> ms[i].Unparseable?)
    && (t.Some? ==> exists i :: 0 <= i < |ms| && ms[i].Parsed? && ms[i].tuple.timestamp == t.value)
    && (t.Some? ==> forall i :: 0 <= i < |ms| && ms[i].Parsed? ==> ms[i].tuple.timestamp <= t.value)
  }

  lemma {:induction false} MaxTimeIsNewest(ms: seq<RawMessage>)
    ensures IsNewest(ms, MaxTime(ms))
  {
    if ms != [] {
      var init, last := ms[..|ms| - 1], ms[|ms| - 1];
      var before := MaxTime(init);
      MaxTimeIsNewest(init);
      if before.Some? {
        var i :| 0 <= i < |init| && init[i].Parsed? && init[i].tuple.timestamp == before.value;
        assert ms[i] == init[i];
      }
      assert forall i :: 0 <= i < |init| ==> ms[i] == init[i];
    }
  }

  // --- Where a payload goes ---

  /** The chat a payload is stored under: its own, or for a LID the phone number chat that is known for it. */
  predicate LandsIn(p: Payload, pn: map<ChatID, ChatID>, chat: ChatID) {
    || p.chat == OtherChat(chat)
    || (p.chat.LidChat? && p.chat.lid in pn && pn[p.chat.lid] == chat)
    || (p.chat.LidChat? && p.chat.lid !in pn && p.chat.lid == chat)
  }

  predicate HasKept(p: Payload) {
    exists i :: 0 <= i < |p.messages| && IsKept(p.messages[i])
  }

  lemma {:induction false} KeptIsEmpty(ms: seq<RawMessage>)
    requires forall i :: 0 <= i < |ms| ==> !IsKept(ms[i])
    ensures Kept(ms) == []
  {
    if ms != [] {
      KeptIsEmpty(ms[..|ms| - 1]);
    }
  }

  lemma StoresWhat(p: Payload, pn: map<ChatID, ChatID>)
    ensures Stores(p, pn) <==> HasKept(p) && (p.chat.LidChat? || p.chat.OtherChat?)
  {
    if HasKept(p) {
      var i :| 0 <= i < |p.messages| && IsKept(p.messages[i]);
      KeptHas(p.messages, i);
    } else {
      KeptIsEmpty(p.messages);
    }
  }

  lemma StoreJustOne(db: Db, login: Login, p: Payload, pn: map<ChatID, ChatID>)
    ensures StoreAll(db, login, [p], pn) == StoreOne(db, login, p, pn, AllOk)
  {
    var none: seq<Payload> := [];
    assert [p][..0] == none;
    assert StoreAll(db, login, none, pn) == db;
  }

  /** A payload with no chat to store it under, or no message worth storing, leaves everything as it is. */
  lemma NothingToStore(db: Db, login: Login, p: Payload, pn: map<ChatID, ChatID>)
    requires !HasKept(p) || p.chat.BadJID? || p.chat.BroadcastList?
    ensures StoreAll(db, login, [p], pn) == db
  {
    StoresWhat(p, pn);
    StoreJustOne(db, login, p, pn);
  }

  // --- The conversation row ---

  /** A time in a payload, where zero means none. */
  predicate IsTime(field: Option<nat>, column: Option<int>) {
    if field.Some? && field.value != 0 then column == Some(field.value) else column == None
  }

  /** The row of a chat that was not there before. */
  predicate IsNewRow(p: Payload, c: Conversation) {
    var f := p.fields;
    && c.archived == f.archived && c.markedUnread == f.markedUnread && c.unreadCount == f.unreadCount
    && c.endOfHistory == f.endOfHistory && c.expiration == f.expiration && c.settingTS == f.settingTS
    && (f.pinned.None? ==> c.pinned == None) && (f.pinned.Some? ==> c.pinned == Some(f.pinned.value > 0))
    && IsTime(f.muteEnd, c.muteEnd)
    && (if f.lastMessage.Some? && f.lastMessage.value != 0 then c.lastMessage == Some(f.lastMessage.value)
        else IsNewest(p.messages, c.lastMessage))
    && c.syncedLogin == None
  }

  lemma RowForIsNew(p: Payload)
    ensures IsNewRow(p, RowFor(p))
  {
    MaxTimeIsNewest(p.messages);
  }

  /** A payload of a new chat makes a row that says what its fields say, under the right key, and no other row. */
  lemma NewChatRow(db: Db, login: Login, p: Payload, pn: map<ChatID, ChatID>, chat: ChatID)
    requires HasKept(p) && LandsIn(p, pn, chat) && ChatKey(login, chat) !in db.conversations
    ensures var t := StoreAll(db, login, [p], pn).conversations;
            && t.Keys == db.conversations.Keys + {ChatKey(login, chat)}
            && (forall k :: k in db.conversations ==> t[k] == db.conversations[k])
            && IsNewRow(p, t[ChatKey(login, chat)])
  {
    hide RowFor, IsNewRow, Kept;
    StoresWhat(p, pn);
    StoreJustOne(db, login, p, pn);
    RowForIsNew(p);
  }

  /** Only a value that is there replaces one. */
  predicate Overwrites<T(==)>(stored: Option<T>, field: Option<T>, column: Option<T>) {
    column == if field.Some? then field else stored
  }

  lemma LaterIsMax(stored: Option<int>, field: Option<int>)
    ensures IsMaxNonNull([stored, field], Later(stored, field))
  {
    assert [stored, field][0] == stored && [stored, field][1] == field;
  }

  /** A payload of a chat that is there already: what it has a value for is replaced, the last message only by a
      later one, and whether the chat was synced stays. */
  lemma KnownChatRow(db: Db, login: Login, p: Payload, pn: map<ChatID, ChatID>, chat: ChatID, e: Conversation)
    requires HasKept(p) && LandsIn(p, pn, chat) && ChatKey(login, chat) in db.conversations && e == RowFor(p)
    ensures var k, t := ChatKey(login, chat), StoreAll(db, login, [p], pn).conversations;
            && IsNewRow(p, e) && t.Keys == db.conversations.Keys
            && (forall q :: q in t && q != k ==> t[q] == db.conversations[q])
            && var c, o := t[k], db.conversations[k];
            && Overwrites(o.archived, e.archived, c.archived) && Overwrites(o.pinned, e.pinned, c.pinned)
            && Overwrites(o.muteEnd, e.muteEnd, c.muteEnd) && Overwrites(o.endOfHistory, e.endOfHistory, c.endOfHistory)
            && Overwrites(o.expiration, e.expiration, c.expiration) && Overwrites(o.settingTS, e.settingTS, c.settingTS)
            && Overwrites(o.markedUnread, e.markedUnread, c.markedUnread)
            && Overwrites(o.unreadCount, e.unreadCount, c.unreadCount)
            && IsMaxNonNull([o.lastMessage, e.lastMessage], c.lastMessage) && c.syncedLogin == o.syncedLogin
  {
    hide RowFor, IsNewRow, Kept, IsMaxNonNull;
    StoresWhat(p, pn);
    StoreJustOne(db, login, p, pn);
    RowForIsNew(p);
    LaterIsMax(db.conversations[ChatKey(login, chat)].lastMessage, e.lastMessage);
  }

  // --- The message rows ---

  /** The kept messages of a payload are in the table under their own keys, the first of each key with its own
      data; the rows that were there before are unchanged, and there are no others. */
  lemma MessageRows(db: Db, login: Login, p: Payload, pn: map<ChatID, ChatID>, chat: ChatID)
    requires HasKept(p) && LandsIn(p, pn, chat)
    ensures var t := StoreAll(db, login, [p], pn).messages;
            && (forall k :: k in db.messages ==> k in t && t[k] == db.messages[k])
            && (forall m :: m in Kept(p.messages) ==> MessageKey(login, chat, m.sender, m.id) in t)
            && (forall k :: k in t && k !in db.messages ==>
                  exists m :: m in Kept(p.messages) && k == MessageKey(login, chat, m.sender, m.id))
  {
    StoresWhat(p, pn);
    StoreJustOne(db, login, p, pn);
    var c, ts := ChatKey(login, chat), Kept(p.messages);
    InsertAllKeys(db.messages, c, ts);
    var t := StoreAll(db, login, [p], pn).messages;
    assert t == InsertAll(db.messages, c, ts);
    forall m | m in ts ensures MessageKey(login, chat, m.sender, m.id) in t {
      var i :| 0 <= i < |ts| && ts[i] == m;
      assert KeyOf(c, ts[i]) in t;
    }
    forall k | k in t && k !in db.messages
      ensures exists m :: m in ts && k == MessageKey(login, chat, m.sender, m.id)
    {
      var i :| 0 <= i < |ts| && k == KeyOf(c, ts[i]);
      assert ts[i] in ts;
    }
  }

  lemma NewMessageRow(db: Db, login: Login, p: Payload, pn: map<ChatID, ChatID>, chat: ChatID, i: nat)
    requires LandsIn(p, pn, chat) && i < |Kept(p.messages)|
    requires var m := Kept(p.messages)[i];
             && MessageKey(login, chat, m.sender, m.id) !in db.messages
             && forall j :: 0 <= j < i ==> Kept(p.messages)[j].sender != m.sender || Kept(p.messages)[j].id != m.id
    ensures var m, t := Kept(p.messages)[i], StoreAll(db, login, [p], pn).messages;
            && MessageKey(login, chat, m.sender, m.id) in t
            && t[MessageKey(login, chat, m.sender, m.id)] == MessageRow(m.timestamp, m.data)
  {
    hide RowFor, Kept, InsertAll;
    StoreJustOne(db, login, p, pn);
    var c, ts := ChatKey(login, chat), Kept(p.messages);
    forall j | 0 <= j < i ensures KeyOf(c, ts[j]) != KeyOf(c, ts[i]) {
      assert ts[j].sender != ts[i].sender || ts[j].id != ts[i].id;
    }
    InsertAllFirst(db.messages, c, ts, i);
  }

  // --- Failures ---

  /** What is left of a payload whose writes fail: nothing without the conversation, no messages if they cannot be
      inserted, everything if only the backfill task cannot be marked. Each of these counts as a failure. */
  lemma FailuresLeave(db: Db, login: Login, p: Payload, pn: map<ChatID, ChatID>)
    ensures StoreOne(db, login, p, pn, ConversationFails) == db
    ensures var all := StoreOne(db, login, p, pn, AllOk);
            && StoreOne(db, login, p, pn, MessagesFail) == Db(all.conversations, db.messages)
            && StoreOne(db, login, p, pn, TaskFails) == all
    ensures forall o :: Failed(p, pn, o) <==> HasKept(p) && (p.chat.LidChat? || p.chat.OtherChat?) && o != AllOk
  {
    hide Kept, RowFor;
    StoresWhat(p, pn);
  }
}

/**
  What handleWAHistorySync (pkg/connector/backfill.go) does to the two tables, as a function of the
  payload and of which database calls fail, and the proof that replaying a payload is harmless.
 */
module HistorySyncStorage {
  import opened Wrappers
  import opened HistoryTables

  // The outcome of parsing a conversation's JID.
  datatype ChatRef = BadJID | BroadcastList | LidChat(lid: ChatID) | OtherChat(jid: ChatID)

  // `ignored`: the type is one the bridge skips; `marshals`: proto.Marshal succeeded.
  datatype RawMessage = Unparseable | Parsed(tuple: Tuple, ignored: bool, marshals: bool)

  datatype Fields = Fields(
    lastMessage: Option<nat>, archived: Option<bool>, pinned: Option<nat>, muteEnd: Option<nat>,
    endOfHistory: Option<int>, expiration: Option<int>, settingTS: Option<int>,
    markedUnread: Option<bool>, unreadCount: Option<int>)

  datatype Payload = Payload(chat: ChatRef, fields: Fields, messages: seq<RawMessage>)

  // Which of the three writes for one conversation goes wrong, if any.
  datatype Outcome = AllOk | ConversationFails | MessagesFail | TaskFails

  /** The chat a payload is stored under: phone-number chats replace hidden-user ones where the mapping is known. */
  function Target(p: Payload, pnForLid: map<ChatID, ChatID>): Option<ChatID> {
    match p.chat
    case BadJID => None
    case BroadcastList => None
    case LidChat(lid) => Some(if lid in pnForLid then pnForLid[lid] else lid)
    case OtherChat(jid) => Some(jid)
  }

  function Kept(ms: seq<RawMessage>): seq<Tuple> {
    if ms == [] then []
    else
      var m := ms[|ms| - 1];
      Kept(ms[..|ms| - 1]) + if m.Parsed? && !m.ignored && m.marshals then [m.tuple] else []
  }

  /** The newest timestamp of any message that parses, ignored ones included. */
  function MaxTime(ms: seq<RawMessage>): Option<int> {
    if ms == [] then None
    else
      var m, rest := ms[|ms| - 1], MaxTime(ms[..|ms| - 1]);
      if m.Parsed? && (rest.None? || m.tuple.timestamp > rest.value) then Some(m.tuple.timestamp) else rest
  }

  function ParseHistoryTime(ts: Option<nat>): Option<int> {
    if ts.None? || ts.value == 0 then None else Some(ts.value)
  }

  function NewConversation(f: Fields, mostRecent: Option<int>): Conversation {
    var last := ParseHistoryTime(f.lastMessage);
    Conversation(
      if last.None? then mostRecent else last, f.archived,
      if f.pinned.None? then None else Some(f.pinned.value > 0), ParseHistoryTime(f.muteEnd),
      f.endOfHistory, f.expiration, f.settingTS, f.markedUnread, f.unreadCount, None)
  }

  function Upsert(t: map<ChatKey, Conversation>, k: ChatKey, e: Conversation): map<ChatKey, Conversation> {
    t[k := if k in t then Merge(t[k], e) else e]
  }

  function Stores(p: Payload, pn: map<ChatID, ChatID>): bool {
    Target(p, pn).Some? && Kept(p.messages) != []
  }

  function RowFor(p: Payload): Conversation {
    NewConversation(p.fields, MaxTime(p.messages))
  }

  function StoreOne(db: Db, login: Login, p: Payload, pn: map<ChatID, ChatID>, o: Outcome): Db {
    if !Stores(p, pn) || o.ConversationFails? then db
    else
      var k := ChatKey(login, Target(p, pn).value);
      Db(Upsert(db.conversations, k, RowFor(p)),
         if o.MessagesFail? then db.messages else InsertAll(db.messages, k, Kept(p.messages)))
  }

  function Failed(p: Payload, pn: map<ChatID, ChatID>, o: Outcome): bool {
    Stores(p, pn) && !o.AllOk?
  }

  /** The tables after the payloads, and whether the handler returned without error. */
  function StoreSync(db: Db, login: Login, ps: seq<Payload>, pn: map<ChatID, ChatID>, os: seq<Outcome>,
                     stopOnError: bool): (r: (Db, bool))
    requires |ps| == |os|
  {
    if ps == [] then (db, true)
    else
      var n := |ps| - 1;
      var (d, ok) := StoreSync(db, login, ps[..n], pn, os[..n], stopOnError);
      if !ok then (d, false)
      else (StoreOne(d, login, ps[n], pn, os[n]), !(stopOnError && Failed(ps[n], pn, os[n])))
  }

  /** Whatever fails, no message row ever lacks its conversation row. */
  lemma {:induction false} StoreSyncKeepsForeignKey(
    db: Db, login: Login, ps: seq<Payload>, pn: map<ChatID, ChatID>, os: seq<Outcome>, stopOnError: bool)
    requires |ps| == |os| && ForeignKey(db)
    ensures ForeignKey(StoreSync(db, login, ps, pn, os, stopOnError).0)
    decreases |ps|
  {
    if ps != [] {
      var n := |ps| - 1;
      StoreSyncKeepsForeignKey(db, login, ps[..n], pn, os[..n], stopOnError);
      var d := StoreSync(db, login, ps[..n], pn, os[..n], stopOnError).0;
      if Stores(ps[n], pn) {
        InsertAllKeys(d.messages, ChatKey(login, Target(ps[n], pn).value), Kept(ps[n].messages));
      }
    }
  }

  // --- Replay, with no failures ---

  function StoreAll(db: Db, login: Login, ps: seq<Payload>, pn: map<ChatID, ChatID>): Db {
    if ps == [] then db else StoreOne(StoreAll(db, login, ps[..|ps| - 1], pn), login, ps[|ps| - 1], pn, AllOk)
  }

  lemma {:induction false} StoreSyncWithoutFailures(
    db: Db, login: Login, ps: seq<Payload>, pn: map<ChatID, ChatID>, os: seq<Outcome>, stopOnError: bool)
    requires |ps| == |os| && forall i :: 0 <= i < |os| ==> os[i].AllOk?
    ensures StoreSync(db, login, ps, pn, os, stopOnError) == (StoreAll(db, login, ps, pn), true)
    decreases |ps|
  {
    if ps != [] {
      StoreSyncWithoutFailures(db, login, ps[..|ps| - 1], pn, os[..|ps| - 1], stopOnError);
    }
  }

  /** The rows a payload list writes to one conversation, in order. */
  function Written(k: ChatKey, login: Login, ps: seq<Payload>, pn: map<ChatID, ChatID>): seq<Conversation> {
    if ps == [] then []
    else
      var p := ps[|ps| - 1];
      Written(k, login, ps[..|ps| - 1], pn)
        + if Stores(p, pn) && k == ChatKey(login, Target(p, pn).value) then [RowFor(p)] else []
  }

  function WrittenTo(row: Option<Conversation>, es: seq<Conversation>): Option<Conversation> {
    if es == [] then row
    else if row.Some? then Some(MergeAll(row.value, es))
    else Some(MergeAll(es[0], es[1..]))
  }

  function Lookup(t: map<ChatKey, Conversation>, k: ChatKey): Option<Conversation> {
    if k in t then Some(t[k]) else None
  }

  lemma WrittenToExtends(row: Option<Conversation>, es: seq<Conversation>, e: Conversation)
    ensures WrittenTo(row, es + [e]) == Some(if WrittenTo(row, es).Some? then Merge(WrittenTo(row, es).value, e) else e)
  {
    assert (es + [e])[..|es|] == es;
    if es != [] {
      assert (es + [e])[1..] == es[1..] + [e];
      assert (es[1..] + [e])[..|es[1..]|] == es[1..];
    } else {
      assert es + [e] == [e] && [e][1..] == [] && MergeAll(e, []) == e;
      assert row.Some? ==> MergeAll(row.value, []) == row.value && [e][..0] == [];
    }
  }

  /** Each conversation row only sees the upserts addressed to it. */
  lemma {:induction false} ConversationAfter(db: Db, login: Login, ps: seq<Payload>, pn: map<ChatID, ChatID>,
                                             k: ChatKey)
    ensures Lookup(StoreAll(db, login, ps, pn).conversations, k)
         == WrittenTo(Lookup(db.conversations, k), Written(k, login, ps, pn))
    decreases |ps|
  {
    if ps != [] {
      var init, p := ps[..|ps| - 1], ps[|ps| - 1];
      ConversationAfter(db, login, init, pn, k);
      if Stores(p, pn) && k == ChatKey(login, Target(p, pn).value) {
        WrittenToExtends(Lookup(db.conversations, k), Written(k, login, init, pn), RowFor(p));
      } else {
        assert Written(k, login, ps, pn) == Written(k, login, init, pn);
      }
    }
  }

  lemma WrittenToAgain(row: Option<Conversation>, es: seq<Conversation>)
    ensures WrittenTo(WrittenTo(row, es), es) == WrittenTo(row, es)
  {
    if es != [] {
      if row.Some? {
        MergeAllAgain(row.value, es);
      } else {
        var m := MergeAll(es[0], es[1..]);
        MergeAllFactors(m, es);
        MergeAssociates(m, m, m);
      }
    }
  }

  predicate Present(t: map<MessageKey, MessageRow>, login: Login, p: Payload, pn: map<ChatID, ChatID>) {
    Stores(p, pn) ==>
      forall i :: 0 <= i < |Kept(p.messages)| ==>
        KeyOf(ChatKey(login, Target(p, pn).value), Kept(p.messages)[i]) in t
  }

  lemma {:induction false} MessagesPresentAfter(db: Db, login: Login, ps: seq<Payload>, pn: map<ChatID, ChatID>)
    ensures forall i :: 0 <= i < |ps| ==> Present(StoreAll(db, login, ps, pn).messages, login, ps[i], pn)
    decreases |ps|
  {
    if ps != [] {
      var init, p := ps[..|ps| - 1], ps[|ps| - 1];
      MessagesPresentAfter(db, login, init, pn);
      var d := StoreAll(db, login, init, pn);
      if Stores(p, pn) {
        InsertAllKeys(d.messages, ChatKey(login, Target(p, pn).value), Kept(p.messages));
      }
      forall i | 0 <= i < |ps| ensures Present(StoreAll(db, login, ps, pn).messages, login, ps[i], pn) {
        assert i < |init| ==> init[i] == ps[i];
      }
    }
  }

  lemma {:induction false} PresentMessagesUnchanged(db: Db, login: Login, ps: seq<Payload>, pn: map<ChatID, ChatID>)
    requires forall i :: 0 <= i < |ps| ==> Present(db.messages, login, ps[i], pn)
    ensures StoreAll(db, login, ps, pn).messages == db.messages
    decreases |ps|
  {
    if ps != [] {
      var init, p := ps[..|ps| - 1], ps[|ps| - 1];
      assert forall i :: 0 <= i < |init| ==> init[i] == ps[i];
      PresentMessagesUnchanged(db, login, init, pn);
      if Stores(p, pn) {
        assert Present(db.messages, login, p, pn);
        InsertAllPresent(db.messages, ChatKey(login, Target(p, pn).value), Kept(p.messages));
      }
    }
  }

  lemma SameLookups(a: map<ChatKey, Conversation>, b: map<ChatKey, Conversation>)
    requires forall k :: Lookup(a, k) == Lookup(b, k)
    ensures a == b
  {
    forall k ensures k in a <==> k in b { assert Lookup(a, k) == Lookup(b, k); }
    forall k | k in a ensures a[k] == b[k] { assert Lookup(a, k) == Lookup(b, k); }
  }

  /** Storing the same history sync again right away changes neither table, even when several of its
      conversations land on the same chat. */
  lemma ReplayIsHarmless(db: Db, login: Login, ps: seq<Payload>, pn: map<ChatID, ChatID>)
    ensures StoreAll(StoreAll(db, login, ps, pn), login, ps, pn) == StoreAll(db, login, ps, pn)
  {
    var d := StoreAll(db, login, ps, pn);
    var e := StoreAll(d, login, ps, pn);
    MessagesPresentAfter(db, login, ps, pn);
    PresentMessagesUnchanged(d, login, ps, pn);
    forall k ensures Lookup(e.conversations, k) == Lookup(d.conversations, k) {
      ConversationAfter(db, login, ps, pn, k);
      ConversationAfter(d, login, ps, pn, k);
      WrittenToAgain(Lookup(db.conversations, k), Written(k, login, ps, pn));
    }
    SameLookups(d.conversations, e.conversations);
  }
}

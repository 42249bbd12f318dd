/**
  Which conversations still need a portal (GetRecent and MarkSynced in pkg/connector/wadb/conversation.go):
  those not yet marked since the login, latest message first. Where NULL sorts depends on the database.
 */
module RecentConversations {
  import opened Wrappers
  import opened HistoryTables
  import opened HistorySyncStorage
  import opened HistoryRows

  type Table = map<ChatKey, Conversation>

  predicate Unsynced(c: Conversation, loginTS: int) {
    c.syncedLogin.None? || c.syncedLogin.value < loginTS
  }

  function Waiting(t: Table, login: Login, loginTS: int): set<ChatKey> {
    set k | k in t && k.login == login && Unsynced(t[k], loginTS)
  }

  /** In descending order `a` can stand before `b`. */
  predicate Before(a: Option<int>, b: Option<int>, nullsFirst: bool) {
    if a.None? then nullsFirst || b.None? else if b.None? then !nullsFirst else a.value >= b.value
  }

  predicate KeyBefore(t: Table, a: ChatKey, b: ChatKey, nullsFirst: bool) {
    a in t && b in t && Before(t[a].lastMessage, t[b].lastMessage, nullsFirst)
  }

  /** What the query may return; a negative limit means none. */
  ghost predicate IsRecent(t: Table, login: Login, limit: int, loginTS: int, nullsFirst: bool, keys: seq<ChatKey>) {
    && (forall i, j :: 0 <= i < j < |keys| ==> keys[i] != keys[j] && KeyBefore(t, keys[i], keys[j], nullsFirst))
    && (forall k :: k in keys ==> k in Waiting(t, login, loginTS))
    && (limit >= 0 ==> |keys| <= limit)
    && (forall k :: k in Waiting(t, login, loginTS) && k !in keys ==>
          0 <= limit == |keys| && forall i :: 0 <= i < |keys| ==> KeyBefore(t, keys[i], k, nullsFirst))
  }

  lemma {:induction false} FirstExists(t: Table, pool: set<ChatKey>, nullsFirst: bool) returns (k: ChatKey)
    requires pool != {} && pool <= t.Keys
    ensures k in pool && forall x :: x in pool ==> KeyBefore(t, k, x, nullsFirst)
    decreases |pool|
  {
    var any :| any in pool;
    k := any;
    if pool - {any} != {} {
      var n := FirstExists(t, pool - {any}, nullsFirst);
      k := if KeyBefore(t, n, any, nullsFirst) then n else any;
      forall x | x in pool ensures KeyBefore(t, k, x, nullsFirst) {
        assert x != any ==> x in pool - {any};
      }
    }
  }

  method GetRecent(t: Table, login: Login, limit: int, loginTS: int, nullsFirst: bool) returns (keys: seq<ChatKey>)
    ensures IsRecent(t, login, limit, loginTS, nullsFirst, keys)
  {
    var left := Waiting(t, login, loginTS);
    keys := [];
    while left != {} && (limit < 0 || |keys| < limit)
      invariant left <= Waiting(t, login, loginTS)
      invariant forall k :: k in Waiting(t, login, loginTS) <==> k in keys || k in left
      invariant forall i, j :: 0 <= i < j < |keys| ==> keys[i] != keys[j] && KeyBefore(t, keys[i], keys[j], nullsFirst)
      invariant forall i, k :: 0 <= i < |keys| && k in left ==> keys[i] != k && KeyBefore(t, keys[i], k, nullsFirst)
      invariant limit >= 0 ==> |keys| <= limit
      decreases left
    {
      ghost var first := FirstExists(t, left, nullsFirst);
      var k :| k in left && forall x :: x in left ==> KeyBefore(t, k, x, nullsFirst);
      keys := keys + [k];
      left := left - {k};
    }
  }

  function Elements(keys: seq<ChatKey>): set<ChatKey> {
    set k | k in keys
  }

  lemma {:induction false} DistinctSize(keys: seq<ChatKey>)
    requires forall i, j :: 0 <= i < j < |keys| ==> keys[i] != keys[j]
    ensures |Elements(keys)| == |keys|
  {
    if keys != [] {
      var n := |keys| - 1;
      DistinctSize(keys[..n]);
      assert Elements(keys) == Elements(keys[..n]) + {keys[n]};
    }
  }

  lemma {:induction false} SubsetSize(a: set<ChatKey>, b: set<ChatKey>)
    requires a <= b
    ensures |a| <= |b| && (|a| == |b| ==> a == b)
    decreases |a|
  {
    if a != {} {
      var k :| k in a;
      SubsetSize(a - {k}, b - {k});
      assert a == (a - {k}) + {k} && b == (b - {k}) + {k};
    }
  }

  /** The message times of two keys are in descending order; a NULL goes first or last, as the database has it. */
  predicate Descending(t: Table, a: ChatKey, b: ChatKey, nullsFirst: bool)
    requires a in t && b in t
  {
    var x, y := t[a].lastMessage, t[b].lastMessage;
    && (x.Some? && y.Some? ==> x.value >= y.value)
    && (x.None? && y.Some? ==> nullsFirst)
    && (x.Some? && y.None? ==> !nullsFirst)
  }

  /** What the query returns: as many as wait, up to the limit if there is one, each once, latest first, and none
      that should stand after one it leaves out. */
  lemma RecentAre(t: Table, login: Login, limit: int, loginTS: int, nullsFirst: bool, keys: seq<ChatKey>)
    requires IsRecent(t, login, limit, loginTS, nullsFirst, keys)
    ensures Elements(keys) <= Waiting(t, login, loginTS) && |Elements(keys)| == |keys|
    ensures var n := |Waiting(t, login, loginTS)|; |keys| == if 0 <= limit < n then limit else n
    ensures forall i, j :: 0 <= i < j < |keys| ==>
              keys[i] in t && keys[j] in t && Descending(t, keys[i], keys[j], nullsFirst)
    ensures forall k :: k in Waiting(t, login, loginTS) && k !in keys ==>
              forall i :: 0 <= i < |keys| ==> keys[i] in t && k in t && Descending(t, keys[i], k, nullsFirst)
  {
    DistinctSize(keys);
    SubsetSize(Elements(keys), Waiting(t, login, loginTS));
    if Elements(keys) != Waiting(t, login, loginTS) {
      var k :| k in Waiting(t, login, loginTS) && k !in Elements(keys);
      assert k !in keys;
    }
    forall i, j | 0 <= i < j < |keys|
      ensures keys[i] in t && keys[j] in t && Descending(t, keys[i], keys[j], nullsFirst)
    {
      assert KeyBefore(t, keys[i], keys[j], nullsFirst);
    }
    forall k | k in Waiting(t, login, loginTS) && k !in keys
      ensures forall i :: 0 <= i < |keys| ==> keys[i] in t && k in t && Descending(t, keys[i], k, nullsFirst)
    {
      forall i | 0 <= i < |keys| ensures keys[i] in t && k in t && Descending(t, keys[i], k, nullsFirst) {
        assert KeyBefore(t, keys[i], k, nullsFirst);
      }
    }
  }

  function Mark(t: Table, k: ChatKey, loginTS: int): Table {
    if k in t then t[k := t[k].(syncedLogin := Some(loginTS))] else t
  }

  function MarkAll(t: Table, keys: seq<ChatKey>, loginTS: int): Table {
    if keys == [] then t else Mark(MarkAll(t, keys[..|keys| - 1], loginTS), keys[|keys| - 1], loginTS)
  }

  lemma {:induction false} MarkAllRows(t: Table, keys: seq<ChatKey>, loginTS: int, k: ChatKey)
    ensures k in MarkAll(t, keys, loginTS) <==> k in t
    ensures k in t ==> MarkAll(t, keys, loginTS)[k] == if k in keys then t[k].(syncedLogin := Some(loginTS)) else t[k]
  {
    if keys != [] {
      MarkAllRows(t, keys[..|keys| - 1], loginTS, k);
    }
  }

  /** A round that marks what the query returned leaves just the others waiting; and it returns something
      whenever anything waits, so enough rounds reach every conversation. */
  lemma RoundMakesProgress(t: Table, login: Login, limit: int, loginTS: int, nullsFirst: bool, keys: seq<ChatKey>)
    requires IsRecent(t, login, limit, loginTS, nullsFirst, keys)
    ensures Waiting(MarkAll(t, keys, loginTS), login, loginTS) == Waiting(t, login, loginTS) - Elements(keys)
    ensures limit != 0 && keys == [] ==> Waiting(t, login, loginTS) == {}
  {
    var after := MarkAll(t, keys, loginTS);
    forall k ensures k in Waiting(after, login, loginTS) <==> k in Waiting(t, login, loginTS) && k !in keys {
      MarkAllRows(t, keys, loginTS, k);
    }
    if limit != 0 && keys == [] {
      forall k ensures k !in Waiting(t, login, loginTS) {}
    }
  }

  /** Once marked, a conversation stays out until a later login, whatever history is stored in between. */
  lemma MarkedStaysOut(db: Db, login: Login, ps: seq<Payload>, pn: map<ChatID, ChatID>, k: ChatKey,
                       loginTS: int, later: int)
    requires k in db.conversations
    ensures var t := StoreAll(db.(conversations := Mark(db.conversations, k, loginTS)), login, ps, pn).conversations;
            k in Waiting(t, k.login, later) <==> loginTS < later
  {
    var marked := db.(conversations := Mark(db.conversations, k, loginTS));
    var es := Written(k, login, ps, pn);
    ConversationAfter(marked, login, ps, pn, k);
    SyncedLoginKept(marked.conversations[k], es);
    var t := StoreAll(marked, login, ps, pn).conversations;
    assert Lookup(t, k) == Some(MergeAll(marked.conversations[k], es));
  }

  /** A chat that a payload has made waits for every login, and a payload of a chat that is there changes nothing
      about whether it waits. */
  lemma StoredChatWaits(db: Db, login: Login, p: Payload, pn: map<ChatID, ChatID>, chat: ChatID, loginTS: int)
    requires HasKept(p) && LandsIn(p, pn, chat)
    ensures var k, t := ChatKey(login, chat), StoreAll(db, login, [p], pn).conversations;
            k in Waiting(t, login, loginTS) <==>
              k !in db.conversations || k in Waiting(db.conversations, login, loginTS)
  {
    hide StoreAll;
    if ChatKey(login, chat) in db.conversations {
      KnownChatRow(db, login, p, pn, chat, RowFor(p));
    } else {
      NewChatRow(db, login, p, pn, chat);
    }
  }

  /** Who waits: the login's conversations that were never marked, or only for an earlier login. */
  lemma WaitingAre(t: Table, login: Login, loginTS: int, k: ChatKey)
    ensures k in Waiting(t, login, loginTS) <==>
              k in t && k.login == login && (t[k].syncedLogin == None || t[k].syncedLogin.value < loginTS)
  {
  }
}

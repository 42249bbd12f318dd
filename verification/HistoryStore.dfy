/**
  The history sync tables as the object the bridge updates: the queries of pkg/connector/wadb and the
  parts of pkg/connector/backfill.go that run over them. Which database calls fail is a parameter, and
  the order of rows with equal timestamps is left to the database.
 */
module HistoryStore {
  import opened Wrappers
  import opened HistoryTables
  import opened HistorySyncStorage
  import opened BackfillPages
  import opened HistoryPages
  import HistorySyncLoop
  import RecentConversations

  const CHUNK_SIZE := 50

  function ChatRows(t: map<MessageKey, MessageRow>, k: ChatKey): set<Message> {
    set x | x in t && x.login == k.login && x.chat == k.chat :: Message(x.sender, x.id, t[x].timestamp, t[x].data)
  }

  lemma NewerThanIs(w: seq<Message>, ts: int, n: nat)
    requires NewestFirst(w) && n <= |w|
    requires forall i :: 0 <= i < n ==> w[i].timestamp > ts
    requires n < |w| ==> w[n].timestamp <= ts
    ensures NewerThan(w, ts) == n
  {
    var m := NewerThan(w, ts);
    assert m < |w| ==> w[m].timestamp <= ts;
    assert n < |w| ==> w[n].timestamp <= ts;
  }

  /** The table without the rows of the chat in a time range. */
  function Without(t: map<MessageKey, MessageRow>, k: ChatKey, before: int, after: int): map<MessageKey, MessageRow> {
    map x | x in t && !(x.login == k.login && x.chat == k.chat && after <= t[x].timestamp <= before) :: t[x]
  }

  lemma DeleteIsPerChat(t: map<MessageKey, MessageRow>, k: ChatKey, before: int, after: int)
    ensures ChatRows(Without(t, k, before, after), k) == BackfillPages.DeleteBetween(ChatRows(t, k), before, after)
    ensures forall q :: q != k ==> ChatRows(Without(t, k, before, after), q) == ChatRows(t, q)
  {
    var u := Without(t, k, before, after);
    forall m | m in BackfillPages.DeleteBetween(ChatRows(t, k), before, after) ensures m in ChatRows(u, k) {
      var x :| x in t && x.login == k.login && x.chat == k.chat
               && m == Message(x.sender, x.id, t[x].timestamp, t[x].data);
      assert x in u && u[x] == t[x];
    }
    forall q | q != k ensures ChatRows(u, q) == ChatRows(t, q) {
      forall m | m in ChatRows(t, q) ensures m in ChatRows(u, q) {
        var x :| x in t && x.login == q.login && x.chat == q.chat
                 && m == Message(x.sender, x.id, t[x].timestamp, t[x].data);
        assert x in u && u[x] == t[x];
      }
    }
  }

  lemma InsertNothing(t: map<MessageKey, MessageRow>, k: ChatKey, ts: seq<Tuple>)
    ensures InsertAll(t, k, ts[..0]) == t
  {
  }

  lemma InsertChunk(t: map<MessageKey, MessageRow>, k: ChatKey, ts: seq<Tuple>, i: nat, end: nat)
    requires i <= end <= |ts|
    ensures InsertAll(InsertAll(t, k, ts[..i]), k, ts[i..end]) == InsertAll(t, k, ts[..end])
  {
    InsertAllSplit(t, k, ts[..i], ts[i..end]);
    assert ts[..i] + ts[i..end] == ts[..end];
  }

  lemma InsertKeepsForeignKey(db: Db, k: ChatKey, ts: seq<Tuple>)
    requires ForeignKey(db) && k in db.conversations
    ensures ForeignKey(db.(messages := InsertAll(db.messages, k, ts)))
  {
    InsertAllKeys(db.messages, k, ts);
  }

  /** `w` has taken the newest rows out of the pool so far. */
  predicate TopSoFar(pool: set<Message>, left: set<Message>, w: seq<Message>) {
    && Elements(w) + left == pool && Elements(w) !! left
    && Distinct(w) && NewestFirst(w)
    && forall x, i :: x in left && 0 <= i < |w| ==> x.timestamp <= w[i].timestamp
  }

  lemma TakeNewest(pool: set<Message>, left: set<Message>, w: seq<Message>, m: Message)
    requires TopSoFar(pool, left, w) && m in left && forall x :: x in left ==> x.timestamp <= m.timestamp
    ensures TopSoFar(pool, left - {m}, w + [m])
  {
    assert Elements([m]) == {m};
    JoinDistinct(w, [m]);
  }

  lemma TakeNone(pool: set<Message>)
    ensures TopSoFar(pool, pool, [])
  {
  }

  lemma TopSoFarIsTop(pool: set<Message>, left: set<Message>, w: seq<Message>, limit: int)
    requires TopSoFar(pool, left, w) && (left == {} || 0 < limit == |w|) && (limit > 0 ==> |w| <= limit)
    ensures IsTop(pool, limit, w)
  {
    assert forall x :: x in pool && x !in w ==> x !in Elements(w);
  }

  lemma StoreNothing(db: Db, login: Login, pn: map<ChatID, ChatID>, stopOnError: bool)
    ensures StoreSync(db, login, [], pn, [], stopOnError) == (db, true)
  {
  }

  /** Storing one payload more. */
  lemma StoreSyncOneMore(db: Db, login: Login, ps: seq<Payload>, pn: map<ChatID, ChatID>, os: seq<Outcome>,
                         stopOnError: bool, i: nat, d: Db)
    requires |ps| == |os| && i < |ps| && StoreSync(db, login, ps[..i], pn, os[..i], stopOnError) == (d, true)
    ensures StoreSync(db, login, ps[..i + 1], pn, os[..i + 1], stopOnError)
         == (StoreOne(d, login, ps[i], pn, os[i]), !(stopOnError && Failed(ps[i], pn, os[i])))
  {
    hide StoreOne, Failed;
    assert ps[..i + 1][..i] == ps[..i] && os[..i + 1][..i] == os[..i];
  }

  /** Collects the messages worth storing and the newest timestamp seen. */
  method CollectMessages(ms: seq<RawMessage>) returns (messages: seq<Tuple>, maxTime: Option<int>)
    ensures messages == Kept(ms) && maxTime == MaxTime(ms)
  {
    messages, maxTime := [], None;
    for i := 0 to |ms|
      invariant messages == Kept(ms[..i]) && maxTime == MaxTime(ms[..i])
    {
      assert ms[..i + 1][..i] == ms[..i];
      var m := ms[i];
      if m.Unparseable? { continue; }
      if maxTime.None? || m.tuple.timestamp > maxTime.value {
        maxTime := Some(m.tuple.timestamp);
      }
      if m.ignored || !m.marshals { continue; }
      messages := messages + [m.tuple];
    }
    assert ms[..|ms|] == ms;
  }

  /** Drops the messages with the oldest timestamp, searching from the end, unless there are no others. */
  method CutOldest(w: seq<Message>) returns (page: seq<Message>)
    requires NewestFirst(w) && w != []
    ensures page == if NewerThan(w, OldestTS(w)) > 0 then w[..NewerThan(w, OldestTS(w))] else w
  {
    var oldestTS := w[|w| - 1].timestamp;
    var i := |w| - 2;
    while i >= 0
      invariant -1 <= i <= |w| - 2
      invariant forall j :: i < j < |w| ==> w[j].timestamp <= oldestTS
    {
      if w[i].timestamp > oldestTS {
        assert forall j :: 0 <= j <= i ==> w[j].timestamp >= w[i].timestamp;
        NewerThanIs(w, oldestTS, i + 1);
        return w[..i + 1];
      }
      i := i - 1;
    }
    NewerThanIs(w, oldestTS, 0);
    page := w;
  }

  /** Once the handler has stopped, the remaining payloads make no difference. */
  lemma {:induction false} PrefixFails(db: Db, login: Login, ps: seq<Payload>, pn: map<ChatID, ChatID>,
                                      os: seq<Outcome>, n: nat)
    requires |ps| == |os| && n <= |ps|
    requires !StoreSync(db, login, ps[..n], pn, os[..n], true).1
    ensures StoreSync(db, login, ps, pn, os, true) == StoreSync(db, login, ps[..n], pn, os[..n], true)
    decreases |ps|
  {
    if n < |ps| {
      var m := |ps| - 1;
      assert ps[..m][..n] == ps[..n] && os[..m][..n] == os[..n];
      PrefixFails(db, login, ps[..m], pn, os[..m], n);
    } else {
      assert ps[..n] == ps && os[..n] == os;
    }
  }

  class Store {
    var conversations: map<ChatKey, Conversation>
    var messages: map<MessageKey, MessageRow>

    function Contents(): Db
      reads this
    {
      Db(conversations, messages)
    }

    predicate Valid()
      reads this
    {
      ForeignKey(Contents())
    }

    constructor ()
      ensures Valid() && Contents() == Db(map[], map[])
    {
      conversations, messages := map[], map[];
    }

    method PutConversation(k: ChatKey, e: Conversation, fails: bool) returns (ok: bool)
      requires Valid()
      modifies this`conversations
      ensures Valid() && ok == !fails
      ensures conversations == if ok then Upsert(old(conversations), k, e) else old(conversations)
    {
      ok := !fails;
      if ok {
        conversations := conversations[k := if k in conversations then Merge(conversations[k], e) else e];
      }
    }

    /** Chunks of 50 in one transaction, equal to a single insert; a failing chunk undoes them all. */
    method PutMessages(k: ChatKey, ts: seq<Tuple>, fails: nat -> bool) returns (ok: bool)
      requires Valid()
      modifies this`messages
      ensures Valid()
      ensures ok <==> (ts == [] || k in conversations) && forall c: nat :: c * CHUNK_SIZE < |ts| ==> !fails(c)
      ensures messages == if ok then InsertAll(old(messages), k, ts) else old(messages)
    {
      hide InsertAll, ForeignKey;
      var before := messages;
      var i, c: nat := 0, 0;
      InsertNothing(before, k, ts);
      while i < |ts|
        invariant i == if c * CHUNK_SIZE < |ts| then c * CHUNK_SIZE else |ts|
        invariant messages == InsertAll(before, k, ts[..i])
        invariant forall d: nat :: d < c ==> !fails(d)
        invariant i > 0 ==> k in conversations
        decreases |ts| - i
      {
        var end := if i + CHUNK_SIZE <= |ts| then i + CHUNK_SIZE else |ts|;
        if fails(c) || k !in conversations {
          messages := before;
          return false;
        }
        InsertChunk(before, k, ts, i, end);
        messages := InsertAll(messages, k, ts[i..end]);
        i, c := end, c + 1;
      }
      assert ts[..i] == ts;
      if k in conversations {
        InsertKeepsForeignKey(Db(conversations, before), k, ts);
      }
      ok := true;
    }

    method MarkSynced(k: ChatKey, loginTS: int)
      requires Valid()
      modifies this`conversations
      ensures Valid() && conversations == RecentConversations.Mark(old(conversations), k, loginTS)
    {
      if k in conversations {
        conversations := conversations[k := conversations[k].(syncedLogin := Some(loginTS))];
      }
    }

    /** Deleting a conversation takes its messages with it (ON DELETE CASCADE). */
    method DeleteConversation(k: ChatKey)
      requires Valid()
      modifies this
      ensures Valid() && conversations == old(conversations) - {k}
      ensures ChatRows(messages, k) == {}
      ensures forall x :: x in messages <==> x in old(messages) && ChatKey(x.login, x.chat) != k
      ensures forall x :: x in messages ==> messages[x] == old(messages)[x]
    {
      conversations := conversations - {k};
      messages := map x | x in messages && ChatKey(x.login, x.chat) != k :: messages[x];
    }

    method GetBetween(k: ChatKey, start: Option<int>, end: Option<int>, limit: int) returns (w: seq<Message>)
      ensures IsWindow(ChatRows(messages, k), start, end, limit, w)
    {
      hide TopSoFar;
      ghost var pool := Eligible(ChatRows(messages, k), start, end);
      var left := Eligible(ChatRows(messages, k), start, end);
      w := [];
      TakeNone(pool);
      while left != {} && (limit <= 0 || |w| < limit)
        invariant TopSoFar(pool, left, w) && (limit > 0 ==> |w| <= limit)
        decreases |left|
      {
        ghost var newest := NewestExists(left);
        var m :| m in left && forall x :: x in left ==> x.timestamp <= m.timestamp;
        TakeNewest(pool, left, w, m);
        w := w + [m];
        left := left - {m};
      }
      TopSoFarIsTop(pool, left, w, limit);
    }

    method DeleteBetween(k: ChatKey, before: int, after: int)
      requires Valid()
      modifies this`messages
      ensures Valid()
      ensures ChatRows(messages, k) == BackfillPages.DeleteBetween(old(ChatRows(messages, k)), before, after)
      ensures forall q :: q != k ==> ChatRows(messages, q) == old(ChatRows(messages, q))
    {
      DeleteIsPerChat(messages, k, before, after);
      messages := Without(messages, k, before, after);
    }

    method DeleteAllInChat(k: ChatKey)
      requires Valid()
      modifies this`messages
      ensures Valid() && ChatRows(messages, k) == {}
      ensures forall x :: x in messages <==> x in old(messages) && ChatKey(x.login, x.chat) != k
      ensures forall x :: x in messages ==> messages[x] == old(messages)[x]
    {
      messages := map x | x in messages && ChatKey(x.login, x.chat) != k :: messages[x];
    }

    /** A page of history: the window the database returned, cut, in chronological order. */
    method FetchMessages(k: ChatKey, p: FetchParams) returns (r: Response)
      ensures Answers(ChatRows(messages, k), p, r)
    {
      var startTime, endTime := None, None;
      if p.forward {
        startTime := p.anchor;
      } else if p.cursor.Some? {
        endTime := p.cursor;
      } else {
        endTime := p.anchor;
      }
      var page := GetBetween(k, startTime, endTime, p.count + 1);
      ghost var w := page;
      if |page| == 0 {
        r := Empty(p.forward);
        assert r == ResponseFor(p, w);
        return;
      }
      var hasMore := false;
      var oldestTS, newestTS := page[|page| - 1].timestamp, page[0].timestamp;
      if |page| > p.count {
        hasMore := true;
        page := CutOldest(page);
      }
      r := Batch(Reverse(page), oldestTS, hasMore, endTime.None?, newestTS, oldestTS);
      assert r == ResponseFor(p, w);
    }

    /** CompleteCallback: with the backfill queue only the page's time range goes, without it the whole chat. */
    method CompletePage(k: ChatKey, r: Response, selective: bool)
      requires Valid() && r.Batch?
      modifies this`messages
      ensures Valid()
      ensures ChatRows(messages, k) ==
                if !selective then {}
                else BackfillPages.DeleteBetween(old(ChatRows(messages, k)), r.newestTS, r.oldestTS)
      ensures forall q :: q != k ==> ChatRows(messages, q) == old(ChatRows(messages, q))
    {
      if selective {
        DeleteBetween(k, r.newestTS, r.oldestTS);
      } else {
        ghost var before := messages;
        DeleteAllInChat(k);
        forall q | q != k ensures ChatRows(messages, q) == ChatRows(before, q) {
          forall m | m in ChatRows(before, q) ensures m in ChatRows(messages, q) {
            var x :| x in before && x.login == q.login && x.chat == q.chat
                     && m == Message(x.sender, x.id, before[x].timestamp, before[x].data);
            assert x in messages;
          }
        }
      }
    }

    /** Stores one conversation of a payload; reports whether any of the three writes failed. */
    method StoreConversation(login: Login, p: Payload, pn: map<ChatID, ChatID>, o: Outcome) returns (failed: bool)
      requires Valid()
      modifies this
      ensures Valid() && Contents() == StoreOne(old(Contents()), login, p, pn, o)
      ensures failed == Failed(p, pn, o)
    {
      var target := Target(p, pn);
      if target.None? {
        return false;
      }
      var k := ChatKey(login, target.value);
      var tuples, maxTime := CollectMessages(p.messages);
      if |tuples| == 0 {
        return false;
      }
      var saved := PutConversation(k, NewConversation(p.fields, maxTime), o.ConversationFails?);
      if !saved {
        return true;
      }
      var fails := (c: nat) => o.MessagesFail?;
      assert fails(0) == o.MessagesFail?;
      saved := PutMessages(k, tuples, fails);
      failed := !saved || o.TaskFails?;
    }

    method HandleHistorySync(kind: HistorySyncLoop.SyncType, login: Login, ps: seq<Payload>, pn: map<ChatID, ChatID>,
                             os: seq<Outcome>, stopOnError: bool) returns (reset: bool, ok: bool)
      requires Valid() && |ps| == |os|
      modifies this
      ensures Valid()
      ensures HistorySyncLoop.Ignored(kind) ==> Contents() == old(Contents()) && !reset && ok
      ensures !HistorySyncLoop.Ignored(kind) ==>
                && (Contents(), ok) == StoreSync(old(Contents()), login, ps, pn, os, stopOnError)
                && reset == (ok && HistorySyncLoop.Dispatches(kind))
    {
      if kind.Absent? || kind.InitialStatusV3? || kind.PushName? || kind.NonBlockingData? {
        return false, true;
      }
      hide StoreSync, StoreOne, Failed;
      ghost var before := Contents();
      StoreNothing(before, login, pn, stopOnError);
      assert ps[..0] == [] && os[..0] == [];
      for i := 0 to |ps|
        invariant Valid()
        invariant (Contents(), true) == StoreSync(before, login, ps[..i], pn, os[..i], stopOnError)
      {
        StoreSyncOneMore(before, login, ps, pn, os, stopOnError, i, Contents());
        var failed := StoreConversation(login, ps[i], pn, os[i]);
        if failed && stopOnError {
          PrefixFails(before, login, ps, pn, os, i + 1);
          return false, false;
        }
      }
      assert ps[..|ps|] == ps && os[..|ps|] == os;
      return kind.Recent? || kind.Full?, true;
    }
  }

  /** One queued notification, downloaded: the payload is stored and the queue row deleted together, or
      neither. A reset request survives a failed delete, as in the source. */
  method SaveDownloaded(s: Store, kind: HistorySyncLoop.SyncType, login: Login, ps: seq<Payload>,
                        pn: map<ChatID, ChatID>, os: seq<Outcome>, deleteFails: bool)
    returns (reset: bool, rowDeleted: bool)
    requires s.Valid() && |ps| == |os|
    modifies s
    ensures s.Valid()
    ensures var (stored, ok) := StoreSync(old(s.Contents()), login, ps, pn, os, true);
            var ignored := HistorySyncLoop.Ignored(kind);
            && s.Contents() == (if rowDeleted && !ignored then stored else old(s.Contents()))
            && (rowDeleted <==> !deleteFails && (ignored || ok))
            && reset == (HistorySyncLoop.Dispatches(kind) && ok)
  {
    var conversations, messages := s.conversations, s.messages;
    var ok;
    reset, ok := s.HandleHistorySync(kind, login, ps, pn, os, true);
    rowDeleted := ok && !deleteFails;
    if !rowDeleted {
      s.conversations, s.messages := conversations, messages;
    }
  }
}

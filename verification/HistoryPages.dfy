/**
  The requests and responses of FetchMessages (pkg/connector/backfill.go): what a response says about the rows
  of the chat, what a run of them returns in which each is asked for with the cursor of the one before, and
  what the callback of a response deletes. The laws speak of responses alone.
 */
module HistoryPages {
  import opened Wrappers
  import opened BackfillPages

  datatype FetchParams = FetchParams(forward: bool, anchor: Option<int>, cursor: Option<int>, count: int)

  function StartTime(p: FetchParams): Option<int> {
    if p.forward then p.anchor else None
  }

  function EndTime(p: FetchParams): Option<int> {
    if p.forward then None else if p.cursor.Some? then p.cursor else p.anchor
  }

  // `messages` are oldest first; the two timestamps are what CompleteCallback captures.
  datatype Response =
    | Empty(forward: bool)
    | Batch(messages: seq<Message>, cursor: int, hasMore: bool, forward: bool, newestTS: int, oldestTS: int)

  function Reverse(w: seq<Message>): (r: seq<Message>)
    ensures |r| == |w| && forall i :: 0 <= i < |w| ==> r[i] == w[|w| - 1 - i]
  {
    seq(|w|, i requires 0 <= i < |w| => w[|w| - 1 - i])
  }

  function ResponseFor(p: FetchParams, w: seq<Message>): Response {
    if w == [] then Empty(p.forward)
    else Batch(Reverse(Page(w, p.count)), OldestTS(w), HasMore(w, p.count), EndTime(p).None?, NewestTS(w), OldestTS(w))
  }

  /** The responses a request may get: one for each window that the database may return. */
  ghost predicate Answers(rows: set<Message>, p: FetchParams, r: Response) {
    exists w :: IsWindow(rows, StartTime(p), EndTime(p), p.count + 1, w) && r == ResponseFor(p, w)
  }

  // --- One response ---

  /** A forward request goes up from its anchor; a backward one down from its cursor, or else its anchor. */
  predicate Admits(p: FetchParams, m: Message) {
    if p.forward then p.anchor.Some? ==> p.anchor.value <= m.timestamp
    else if p.cursor.Some? then m.timestamp <= p.cursor.value
    else p.anchor.Some? ==> m.timestamp <= p.anchor.value
  }

  function Wanted(rows: set<Message>, p: FetchParams): set<Message> {
    set m | m in rows && Admits(p, m)
  }

  predicate OldestFirst(ms: seq<Message>) {
    forall i, j :: 0 <= i < j < |ms| ==> ms[i].timestamp <= ms[j].timestamp
  }

  /** No timestamp has more rows than fit in a page. */
  predicate WantedTiesFit(rows: set<Message>, p: FetchParams) {
    forall m :: m in Wanted(rows, p) ==> |AtTime(rows, m.timestamp)| <= p.count
  }

  lemma WantedIsEligible(rows: set<Message>, p: FetchParams)
    ensures Wanted(rows, p) == Eligible(rows, StartTime(p), EndTime(p))
  {
  }

  lemma ReverseKeeps(w: seq<Message>)
    ensures Elements(Reverse(w)) == Elements(w)
    ensures Distinct(w) ==> Distinct(Reverse(w))
    ensures NewestFirst(w) ==> OldestFirst(Reverse(w))
  {
    forall m | m in Elements(w) ensures m in Elements(Reverse(w)) {
      var i :| 0 <= i < |w| && w[i] == m;
      assert Reverse(w)[|w| - 1 - i] == m;
    }
  }

  lemma WindowFills(rows: set<Message>, p: FetchParams, w: seq<Message>)
    requires IsWindow(rows, StartTime(p), EndTime(p), p.count + 1, w)
    ensures HasMore(w, p.count) <==> Wanted(rows, p) != {} && |Wanted(rows, p)| > p.count
    ensures w == [] <==> Wanted(rows, p) == {}
  {
    WantedIsEligible(rows, p);
    DistinctSize(w);
    SubsetSize(Elements(w), Wanted(rows, p));
    if w == [] {
      forall m ensures m !in Wanted(rows, p) {
        assert m !in Elements(w);
      }
    } else {
      assert w[0] in Elements(w);
    }
    if Elements(w) != Wanted(rows, p) {
      var m :| m in Wanted(rows, p) && m !in Elements(w);
      assert m !in w;
    }
  }

  lemma PageOfWindow(w: seq<Message>, count: int)
    requires w != [] && Distinct(w) && NewestFirst(w)
    ensures var page := Page(w, count); page != [] && page == w[..|page|] && Distinct(page) && NewestFirst(page)
  {
  }

  /** What is asked for and not returned is at or below the cursor. */
  lemma MissingIsBelowCursor(rows: set<Message>, p: FetchParams, w: seq<Message>, m: Message)
    requires IsWindow(rows, StartTime(p), EndTime(p), p.count + 1, w) && w != []
    requires m in Wanted(rows, p) && m.timestamp > OldestTS(w)
    ensures m in Elements(Page(w, p.count))
  {
    WantedIsEligible(rows, p);
    NewerIsInWindow(rows, StartTime(p), EndTime(p), p.count + 1, w, m);
    PageHasNewer(w, p.count, m);
  }

  /** The page of a window: wanted rows no older than the cursor, and all that are newer. */
  ghost predicate IsPage(rows: set<Message>, p: FetchParams, page: set<Message>, cursor: int) {
    && page <= Wanted(rows, p)
    && (forall m :: m in page ==> cursor <= m.timestamp)
    && (forall m :: m in Wanted(rows, p) && m.timestamp > cursor ==> m in page)
    && (exists m :: m in Wanted(rows, p) && m.timestamp == cursor)
  }

  lemma WindowPage(rows: set<Message>, p: FetchParams, w: seq<Message>)
    requires IsWindow(rows, StartTime(p), EndTime(p), p.count + 1, w) && w != []
    ensures IsPage(rows, p, Elements(Page(w, p.count)), OldestTS(w))
  {
    hide Page;
    WantedIsEligible(rows, p);
    PageFromWindow(w, p.count);
    assert w[|w| - 1] in Elements(w);
    forall m | m in Elements(Page(w, p.count)) ensures OldestTS(w) <= m.timestamp && m in Wanted(rows, p) {
      assert m in Elements(w);
      var i :| 0 <= i < |w| && w[i] == m;
    }
    forall m | m in Wanted(rows, p) && m.timestamp > OldestTS(w) ensures m in Elements(Page(w, p.count)) {
      MissingIsBelowCursor(rows, p, w, m);
    }
  }

  lemma WindowIsOrdered(rows: set<Message>, p: FetchParams, w: seq<Message>)
    requires IsWindow(rows, StartTime(p), EndTime(p), p.count + 1, w)
    ensures Distinct(w) && NewestFirst(w)
  {
  }

  /** What any response says: nothing wanted, nothing returned; otherwise wanted messages only, each once and in
      order, and everything wanted except at most what is no newer than the cursor, which is the timestamp of a
      row wanted and of none newer than a message returned. There is more exactly if more than Count rows were
      wanted, and if not, all are there. */
  lemma ResponseLaw(rows: set<Message>, p: FetchParams, r: Response)
    requires Answers(rows, p, r)
    ensures r.Empty? <==> Wanted(rows, p) == {}
    ensures r.forward <==> p.forward || (r.Batch? && p.cursor.None? && p.anchor.None?)
    ensures r.Batch? ==> && r.messages != [] && Distinct(r.messages) && OldestFirst(r.messages)
                         && IsPage(rows, p, Elements(r.messages), r.cursor)
    ensures r.Batch? ==> (r.hasMore <==> |Wanted(rows, p)| > p.count)
    ensures r.Batch? && !r.hasMore ==> Elements(r.messages) == Wanted(rows, p)
  {
    hide Page, IsWindow, IsPage, Wanted, HasMore, OldestTS, NewestTS, Distinct, OldestFirst, NewestFirst;
    var w :| IsWindow(rows, StartTime(p), EndTime(p), p.count + 1, w) && r == ResponseFor(p, w);
    WindowFills(rows, p, w);
    if w != [] {
      WantedIsEligible(rows, p);
      WindowIsOrdered(rows, p, w);
      PageOfWindow(w, p.count);
      ReverseKeeps(Page(w, p.count));
      WindowPage(rows, p, w);
      if !r.hasMore {
        LastPageIsFull(rows, StartTime(p), EndTime(p), p.count, w);
      }
    }
  }

  /** The two timestamps of a response are those of the newest row wanted and of the cursor. */
  lemma ResponseTimes(rows: set<Message>, p: FetchParams, r: Response)
    requires Answers(rows, p, r) && r.Batch?
    ensures r.oldestTS == r.cursor
    ensures exists m :: m in r.messages && m.timestamp == r.newestTS
    ensures forall m :: m in Wanted(rows, p) ==> m.timestamp <= r.newestTS
  {
    var w :| IsWindow(rows, StartTime(p), EndTime(p), p.count + 1, w) && r == ResponseFor(p, w);
    WantedIsEligible(rows, p);
    PageOfWindow(w, p.count);
    assert r.messages[|r.messages| - 1] == w[0];
    forall m | m in Wanted(rows, p) ensures m.timestamp <= r.newestTS {
      if m in w {
        var i :| 0 <= i < |w| && w[i] == m;
      }
    }
  }

  lemma CutIsNewer(w: seq<Message>, ts: int, m: Message)
    requires m in Elements(w[..NewerThan(w, ts)])
    ensures m.timestamp > ts
  {
    var n := NewerThan(w, ts);
    var i :| 0 <= i < n && w[..n][i] == m;
    assert w[i] == m;
  }

  /** When ties fit, a backward response with more to come stays above its cursor, and within Count. */
  lemma CutResponse(rows: set<Message>, p: FetchParams, r: Response)
    requires Answers(rows, p, r) && !p.forward && r.Batch? && r.hasMore && WantedTiesFit(rows, p)
    ensures |r.messages| <= p.count && forall m :: m in Elements(r.messages) ==> m.timestamp > r.cursor
    ensures p.cursor.Some? ==> r.cursor < p.cursor.value
  {
    hide Page, IsWindow, Wanted, NewerThan;
    var w :| IsWindow(rows, StartTime(p), EndTime(p), p.count + 1, w) && r == ResponseFor(p, w);
    WantedIsEligible(rows, p);
    CutPage(rows, EndTime(p), p.count, w);
    ReverseKeeps(Page(w, p.count));
    forall m | m in Elements(r.messages) ensures m.timestamp > r.cursor {
      CutIsNewer(w, OldestTS(w), m);
    }
  }

  // --- Runs ---

  /** Responses to a request and then to the same one with each time the cursor of the response before, as long as
      there is more; nothing is deleted in between. */
  ghost predicate IsFetchRun(rows: set<Message>, p: FetchParams, rs: seq<Response>)
    decreases |rs|
  {
    && rs != [] && Answers(rows, p, rs[0])
    && (|rs| > 1 ==> && rs[0].Batch? && rs[0].hasMore
                     && IsFetchRun(rows, p.(cursor := Some(rs[0].cursor)), rs[1..]))
  }

  predicate Ended(rs: seq<Response>) {
    rs != [] && (rs[|rs| - 1].Batch? ==> !rs[|rs| - 1].hasMore)
  }

  function MessagesOf(r: Response): seq<Message> {
    if r.Empty? then [] else r.messages
  }

  function AllMessages(rs: seq<Response>): seq<Message> {
    if rs == [] then [] else MessagesOf(rs[0]) + AllMessages(rs[1..])
  }

  lemma OneWindow(rows: set<Message>, p: FetchParams, r: Response) returns (w: seq<Message>)
    requires Answers(rows, p, r) && !p.forward
    ensures IsWindow(rows, None, EndTime(p), p.count + 1, w)
    ensures Elements(MessagesOf(r)) == Elements(Page(w, p.count)) && |MessagesOf(r)| == |Page(w, p.count)|
    ensures r.Empty? <==> w == []
    ensures r.Batch? ==> r.cursor == OldestTS(w) && (r.hasMore <==> HasMore(w, p.count))
  {
    w :| IsWindow(rows, StartTime(p), EndTime(p), p.count + 1, w) && r == ResponseFor(p, w);
    ReverseKeeps(Page(w, p.count));
  }

  lemma ElementsConcat(a: seq<Message>, b: seq<Message>)
    ensures Elements(a + b) == Elements(a) + Elements(b)
  {
  }

  /** The windows behind a backward run of responses. */
  lemma {:induction false} WindowsOf(rows: set<Message>, p: FetchParams, rs: seq<Response>)
    returns (ws: seq<seq<Message>>)
    requires IsFetchRun(rows, p, rs) && !p.forward
    ensures |ws| == |rs| && IsChain(rows, EndTime(p), p.count, ws)
    ensures Ended(rs) <==> IsComplete(p.count, ws)
    ensures Elements(AllMessages(rs)) == Elements(Returned(p.count, ws))
    ensures |AllMessages(rs)| == |Returned(p.count, ws)|
    decreases |rs|
  {
    hide Answers, Page;
    var w := OneWindow(rows, p, rs[0]);
    var rest: seq<seq<Message>> := [];
    if |rs| > 1 {
      rest := WindowsOf(rows, p.(cursor := Some(rs[0].cursor)), rs[1..]);
    }
    ws := [w] + rest;
    assert ws[1..] == rest;
    ElementsConcat(MessagesOf(rs[0]), AllMessages(rs[1..]));
    ElementsConcat(Page(w, p.count), Returned(p.count, rest));
  }

  lemma {:induction false} ElementsSize(w: seq<Message>)
    ensures |Elements(w)| <= |w|
  {
    if w != [] {
      var n := |w| - 1;
      ElementsSize(w[..n]);
      assert w == w[..n] + [w[n]];
      ElementsConcat(w[..n], [w[n]]);
      assert Elements([w[n]]) == {w[n]};
    }
  }

  lemma {:induction false} SizeDistinct(w: seq<Message>)
    requires |Elements(w)| == |w|
    ensures Distinct(w)
  {
    if w != [] {
      var n := |w| - 1;
      var init, last := w[..n], w[n];
      assert w == init + [last];
      ElementsConcat(init, [last]);
      assert Elements([last]) == {last};
      ElementsSize(init);
      assert last in Elements(init) ==> Elements(w) == Elements(init);
      assert |Elements(w)| == |Elements(init)| + 1;
      SizeDistinct(init);
      assert forall i :: 0 <= i < n ==> w[i] == init[i] && init[i] in Elements(init);
    }
  }

  /** Following the cursors of the responses to the end returns every row that was wanted, and each once. */
  lemma FetchRunIsLossless(rows: set<Message>, p: FetchParams, rs: seq<Response>)
    requires !p.forward && IsFetchRun(rows, p, rs) && Ended(rs)
    ensures Elements(AllMessages(rs)) == Wanted(rows, p) && Distinct(AllMessages(rs))
  {
    var ws := WindowsOf(rows, p, rs);
    PaginationIsLossless(rows, EndTime(p), p.count, ws);
    WantedIsEligible(rows, p);
    DistinctSize(Returned(p.count, ws));
    SizeDistinct(AllMessages(rs));
  }

  ghost predicate CanEnd(rows: set<Message>, p: FetchParams) {
    exists rs :: IsFetchRun(rows, p, rs) && Ended(rs)
  }

  lemma WindowAnswers(rows: set<Message>, p: FetchParams, w: seq<Message>) returns (r: Response)
    requires IsWindow(rows, None, EndTime(p), p.count + 1, w) && !p.forward
    ensures Answers(rows, p, r) && (r.Empty? <==> w == [])
    ensures r.Batch? ==> r.cursor == OldestTS(w) && (r.hasMore <==> HasMore(w, p.count))
  {
    r := ResponseFor(p, w);
  }

  lemma {:induction false} RunOf(rows: set<Message>, p: FetchParams, ws: seq<seq<Message>>) returns (rs: seq<Response>)
    requires !p.forward && ws != [] && IsChain(rows, EndTime(p), p.count, ws)
    ensures IsFetchRun(rows, p, rs) && |rs| == |ws|
    ensures rs[|rs| - 1].Batch? ==> (rs[|rs| - 1].hasMore <==> HasMore(ws[|ws| - 1], p.count))
    decreases |ws|
  {
    hide Answers, IsWindow;
    var r := WindowAnswers(rows, p, ws[0]);
    rs := [r];
    if |ws| > 1 {
      var rest := RunOf(rows, p.(cursor := Some(r.cursor)), ws[1..]);
      rs := [r] + rest;
      assert rs[1..] == rest;
    }
  }

  /** There is an end to come to exactly if no timestamp wanted has more rows than Count, and then no run is longer
      than the rows are many. */
  lemma FetchRunEndsIffTiesFit(rows: set<Message>, p: FetchParams)
    requires !p.forward
    ensures CanEnd(rows, p) <==> WantedTiesFit(rows, p)
    ensures WantedTiesFit(rows, p) ==> forall rs :: IsFetchRun(rows, p, rs) ==> |rs| <= |Wanted(rows, p)| + 1
  {
    WantedIsEligible(rows, p);
    if WantedTiesFit(rows, p) {
      var ws := CompletionExists(rows, EndTime(p), p.count);
      var rs := RunOf(rows, p, ws);
      assert IsFetchRun(rows, p, rs) && Ended(rs);
      forall qs | IsFetchRun(rows, p, qs) ensures |qs| <= |Wanted(rows, p)| + 1 {
        var vs := WindowsOf(rows, p, qs);
        ChainIsShort(rows, EndTime(p), p.count, vs);
      }
    }
    if CanEnd(rows, p) {
      var rs :| IsFetchRun(rows, p, rs) && Ended(rs);
      var ws := WindowsOf(rows, p, rs);
      CompleteOnlyIfTiesFit(rows, EndTime(p), p.count, ws);
    }
  }

  // --- Deletion ---

  /** The rows that go with a response without being in it. */
  function LostWith(rows: set<Message>, r: Response): set<Message>
    requires r.Batch?
  {
    AtTime(rows, r.cursor) - Elements(r.messages)
  }

  /** Deleting what the callback of a response captured: the rows before are the rows returned, the rows still
      stored and the rows at the cursor that were not returned, and only one of the three. */
  lemma DeletionAfterResponse(rows: set<Message>, p: FetchParams, r: Response)
    requires Answers(rows, p, r) && r.Batch?
    ensures var returned, kept := Elements(r.messages), DeleteBetween(rows, r.newestTS, r.oldestTS);
            returned !! kept !! LostWith(rows, r) && returned + kept + LostWith(rows, r) == rows
  {
    hide Page, IsWindow, DeleteBetween, AtTime;
    var w :| IsWindow(rows, StartTime(p), EndTime(p), p.count + 1, w) && r == ResponseFor(p, w);
    ReverseKeeps(Page(w, p.count));
    DeletionLaw(rows, StartTime(p), EndTime(p), p.count, w);
  }

  /** The third part is empty exactly if there was no more to come, or the response is all of one timestamp and
      has every row of it. */
  lemma LossAfterResponse(rows: set<Message>, p: FetchParams, r: Response)
    requires Answers(rows, p, r) && r.Batch?
    ensures LostWith(rows, r) == {} <==>
              !r.hasMore || (r.newestTS == r.cursor && |AtTime(rows, r.cursor)| == |r.messages|)
  {
    hide Page, IsWindow, AtTime;
    var w :| IsWindow(rows, StartTime(p), EndTime(p), p.count + 1, w) && r == ResponseFor(p, w);
    ReverseKeeps(Page(w, p.count));
    LossLaw(rows, StartTime(p), EndTime(p), p.count, w);
    if r.newestTS == r.cursor {
      UncutLoss(rows, StartTime(p), EndTime(p), p.count, w);
    }
  }

  /** The response says which way it goes, except that a backward one with neither a cursor nor an anchor and
      something to return is marked as forward. */
  lemma ForwardFlag(rows: set<Message>, p: FetchParams, r: Response)
    requires Answers(rows, p, r)
    ensures r.forward == p.forward <==> p.forward || p.cursor.Some? || p.anchor.Some? || r.Empty?
  {
    ResponseLaw(rows, p, r);
  }
}

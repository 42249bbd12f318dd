/**
  The paging rules of FetchMessages (pkg/connector/backfill.go) over the rows of one chat: which rows
  a query may return, how a page is cut from them, what following the cursor returns over a whole
  run, and what the deletion after a page removes. Ties in the timestamp order are broken however the
  database likes, and differently on each query.
 */
module BackfillPages {
  import opened Wrappers

  datatype Message = Message(sender: string, id: string, timestamp: int, data: string)

  predicate Within(m: Message, start: Option<int>, end: Option<int>) {
    && (start.Some? ==> m.timestamp >= start.value)
    && (end.Some? ==> m.timestamp <= end.value)
  }

  function Eligible(rows: set<Message>, start: Option<int>, end: Option<int>): set<Message> {
    set m | m in rows && Within(m, start, end)
  }

  function AtTime(rows: set<Message>, ts: int): set<Message> {
    set m | m in rows && m.timestamp == ts
  }

  function Elements(w: seq<Message>): set<Message> {
    set m | m in w
  }

  predicate Distinct(w: seq<Message>) {
    forall i, j :: 0 <= i < j < |w| ==> w[i] != w[j]
  }

  predicate NewestFirst(w: seq<Message>) {
    forall i, j :: 0 <= i < j < |w| ==> w[i].timestamp >= w[j].timestamp
  }

  /** The newest `limit` of a pool of rows, newest first; all of them if limit is not positive. */
  predicate IsTop(pool: set<Message>, limit: int, w: seq<Message>) {
    && Distinct(w) && NewestFirst(w)
    && Elements(w) <= pool
    && (forall m :: m in pool && m !in w ==>
          0 < limit == |w| && forall i :: 0 <= i < |w| ==> m.timestamp <= w[i].timestamp)
    && (limit > 0 ==> |w| <= limit)
  }

  /** `ORDER BY timestamp DESC LIMIT limit`, the clause being left out when limit is not positive. */
  predicate IsWindow(rows: set<Message>, start: Option<int>, end: Option<int>, limit: int, w: seq<Message>) {
    IsTop(Eligible(rows, start, end), limit, w)
  }

  // --- One page ---

  function OldestTS(w: seq<Message>): int
    requires w != []
  {
    w[|w| - 1].timestamp
  }

  function NewestTS(w: seq<Message>): int
    requires w != []
  {
    w[0].timestamp
  }

  predicate HasMore(w: seq<Message>, count: int) {
    w != [] && |w| > count
  }

  /** How many leading messages are newer than `ts`. */
  function NewerThan(w: seq<Message>, ts: int): (n: nat)
    ensures n <= |w|
    ensures forall i :: 0 <= i < n ==> w[i].timestamp > ts
    ensures n < |w| ==> w[n].timestamp <= ts
  {
    if w != [] && w[0].timestamp > ts then
      var n := NewerThan(w[1..], ts);
      assert forall i :: 1 <= i < n + 1 ==> w[i] == w[1..][i - 1];
      n + 1
    else 0
  }

  /** The page, newest first: a window that overflows loses its oldest timestamp, unless it has no other. */
  function Page(w: seq<Message>, count: int): seq<Message> {
    if HasMore(w, count) && NewerThan(w, OldestTS(w)) > 0 then w[..NewerThan(w, OldestTS(w))] else w
  }

  /** The rows that are left to return below the cursor of this page. */
  function Remaining(rows: set<Message>, w: seq<Message>): set<Message>
    requires w != []
  {
    Eligible(rows, None, Some(OldestTS(w)))
  }

  predicate TiesFit(rows: set<Message>, end: Option<int>, count: int) {
    forall m :: m in Eligible(rows, None, end) ==> |AtTime(rows, m.timestamp)| <= count
  }

  lemma {:induction false} DistinctSize(w: seq<Message>)
    requires Distinct(w)
    ensures |Elements(w)| == |w|
  {
    if w != [] {
      var n := |w| - 1;
      DistinctSize(w[..n]);
      assert Elements(w) == Elements(w[..n]) + {w[n]};
    }
  }

  /** Two duplicate-free lists without a common element join into a duplicate-free list. */
  lemma JoinDistinct(a: seq<Message>, b: seq<Message>)
    requires Distinct(a) && Distinct(b) && Elements(a) !! Elements(b)
    ensures Distinct(a + b) && Elements(a + b) == Elements(a) + Elements(b)
  {
    forall i, j | 0 <= i < j < |a + b| ensures (a + b)[i] != (a + b)[j] {
      if i < |a| <= j {
        assert a[i] in Elements(a) && b[j - |a|] in Elements(b);
      }
    }
  }

  lemma SubsetSize(a: set<Message>, b: set<Message>)
    requires a <= b
    ensures |a| <= |b|
    ensures |a| == |b| ==> a == b
    decreases |a|
  {
    if a != {} {
      var m :| m in a;
      SubsetSize(a - {m}, b - {m});
      assert a == (a - {m}) + {m} && b == (b - {m}) + {m};
    }
  }

  /** A row newer than the oldest timestamp of a window that could have held it is in that window. */
  lemma NewerIsInWindow(rows: set<Message>, start: Option<int>, end: Option<int>, limit: int, w: seq<Message>,
                        m: Message)
    requires IsWindow(rows, start, end, limit, w) && w != []
    requires m in Eligible(rows, start, end) && m.timestamp > OldestTS(w)
    ensures m in Elements(w)
  {
    assert w[|w| - 1].timestamp < m.timestamp;
  }

  /** When ties fit into a page, an overflowing window is really cut: the page is neither empty nor too
      long, and every one of its messages is newer than the cursor. */
  lemma CutPage(rows: set<Message>, end: Option<int>, count: int, w: seq<Message>)
    requires IsWindow(rows, None, end, count + 1, w) && HasMore(w, count) && TiesFit(rows, end, count)
    ensures 0 < |Page(w, count)| <= count
    ensures Page(w, count) == w[..NewerThan(w, OldestTS(w))]
    ensures end.Some? ==> OldestTS(w) < end.value
  {
    var oldest := OldestTS(w);
    var last := w[|w| - 1];
    assert last in Elements(w);
    assert |AtTime(rows, oldest)| <= count;
    if NewerThan(w, oldest) == 0 {
      assert forall i :: 0 <= i < |w| ==> w[i].timestamp == oldest;
      assert Elements(w) <= AtTime(rows, oldest);
      DistinctSize(w);
      SubsetSize(Elements(w), AtTime(rows, oldest));
      assert false;
    }
    assert {last} <= AtTime(rows, oldest);
    SubsetSize({last}, AtTime(rows, oldest));
    assert w[0] in Elements(w);
  }

  /** What lies at or below the cursor was asked for. */
  lemma RemainingIsEligible(rows: set<Message>, end: Option<int>, limit: int, w: seq<Message>)
    requires IsWindow(rows, None, end, limit, w) && w != []
    ensures Remaining(rows, w) <= Eligible(rows, None, end)
  {
    assert w[|w| - 1] in Elements(w);
  }

  lemma NewerIsInPage(rows: set<Message>, end: Option<int>, limit: int, w: seq<Message>, m: Message)
    requires IsWindow(rows, None, end, limit, w) && w != []
    requires m in Eligible(rows, None, end) && m.timestamp > OldestTS(w)
    ensures m in Elements(w[..NewerThan(w, OldestTS(w))])
  {
    NewerIsInWindow(rows, None, end, limit, w, m);
    var i :| 0 <= i < |w| && w[i] == m;
    var n := NewerThan(w, OldestTS(w));
    assert i < n;
    assert w[..n][i] == m;
  }

  /** A cut page and what lies at or below its cursor are exactly what the page was asked for. */
  lemma CutPagePartition(rows: set<Message>, end: Option<int>, count: int, w: seq<Message>)
    requires IsWindow(rows, None, end, count + 1, w) && HasMore(w, count)
    requires Page(w, count) == w[..NewerThan(w, OldestTS(w))]
    ensures Elements(Page(w, count)) !! Remaining(rows, w)
    ensures Elements(Page(w, count)) + Remaining(rows, w) == Eligible(rows, None, end)
  {
    hide Page, NewerThan;
    var p := w[..NewerThan(w, OldestTS(w))];
    RemainingIsEligible(rows, end, count + 1, w);
    forall m | m in Eligible(rows, None, end) ensures m in Elements(p) + Remaining(rows, w) {
      if m.timestamp > OldestTS(w) {
        NewerIsInPage(rows, end, count + 1, w, m);
      }
    }
    forall m | m in Elements(p) ensures m in Eligible(rows, None, end) && m !in Remaining(rows, w) {
      var i :| 0 <= i < |p| && p[i] == m;
      assert w[i] == m && m in Elements(w);
    }
  }

  // --- Following the cursor ---

  /** Successive windows of a backward pagination in which nothing is deleted between fetches. */
  predicate IsChain(rows: set<Message>, end: Option<int>, count: int, ws: seq<seq<Message>>)
    decreases |ws|
  {
    ws == [] ||
    (&& IsWindow(rows, None, end, count + 1, ws[0])
     && (|ws| > 1 ==> HasMore(ws[0], count) && IsChain(rows, Some(OldestTS(ws[0])), count, ws[1..])))
  }

  predicate IsComplete(count: int, ws: seq<seq<Message>>) {
    ws != [] && !HasMore(ws[|ws| - 1], count)
  }

  function Returned(count: int, ws: seq<seq<Message>>): seq<Message> {
    if ws == [] then [] else Page(ws[0], count) + Returned(count, ws[1..])
  }

  /** An unfinished page cannot hide that some timestamp has too many rows: it is still below the cursor. */
  lemma TooManyTiesStayBelow(rows: set<Message>, end: Option<int>, count: int, w: seq<Message>)
    requires IsWindow(rows, None, end, count + 1, w) && HasMore(w, count)
    requires TiesFit(rows, Some(OldestTS(w)), count)
    ensures TiesFit(rows, end, count)
  {
    var last := w[|w| - 1];
    assert last in Elements(w) && last in Remaining(rows, w);
    assert {last} <= AtTime(rows, last.timestamp);
    SubsetSize({last}, AtTime(rows, last.timestamp));
    forall m | m in Eligible(rows, None, end) ensures |AtTime(rows, m.timestamp)| <= count {
      if m.timestamp > OldestTS(w) {
        var same := AtTime(rows, m.timestamp);
        forall x | x in same ensures x in Elements(w) - {last} {
          assert x in Eligible(rows, None, end);
          NewerIsInWindow(rows, None, end, count + 1, w, x);
        }
        DistinctSize(w);
        SubsetSize(same, Elements(w) - {last});
      } else {
        assert m in Remaining(rows, w);
      }
    }
  }

  /** Pagination only ever comes to an end if no timestamp has more rows than fit in a page. */
  lemma {:induction false} CompleteOnlyIfTiesFit(rows: set<Message>, end: Option<int>, count: int,
                                                 ws: seq<seq<Message>>)
    requires IsChain(rows, end, count, ws) && IsComplete(count, ws)
    ensures TiesFit(rows, end, count)
    decreases |ws|
  {
    var w := ws[0];
    if |ws| > 1 {
      CompleteOnlyIfTiesFit(rows, Some(OldestTS(w)), count, ws[1..]);
      TooManyTiesStayBelow(rows, end, count, w);
    } else {
      DistinctSize(w);
      forall m | m in Eligible(rows, None, end) ensures |AtTime(rows, m.timestamp)| <= count {
        assert m in w;
        forall x | x in AtTime(rows, m.timestamp) ensures x in Elements(w) {
          assert x in Eligible(rows, None, end);
          assert x !in w ==> 0 < count + 1 == |w|;
        }
        SubsetSize(AtTime(rows, m.timestamp), Elements(w));
      }
    }
  }

  /** ... and then every page before the last is a proper cut, so the cursor strictly decreases and the
      number of pages is bounded by the number of rows. */
  lemma {:induction false} ChainIsShort(rows: set<Message>, end: Option<int>, count: int, ws: seq<seq<Message>>)
    requires IsChain(rows, end, count, ws) && TiesFit(rows, end, count)
    ensures |ws| <= |Eligible(rows, None, end)| + 1
    decreases |ws|
  {
    if |ws| > 1 {
      var w := ws[0];
      CutPage(rows, end, count, w);
      CutPagePartition(rows, end, count, w);
      ChainIsShort(rows, Some(OldestTS(w)), count, ws[1..]);
      assert w[0] in Page(w, count);
      assert w[0] in Elements(Page(w, count));
      assert Remaining(rows, w) <= Eligible(rows, None, end) - {w[0]};
      SubsetSize(Remaining(rows, w), Eligible(rows, None, end) - {w[0]});
    }
  }

  /** The cursors of a pagination go strictly down whenever ties fit. */
  lemma CursorDecreases(rows: set<Message>, end: Option<int>, count: int, ws: seq<seq<Message>>)
    requires |ws| > 1 && IsChain(rows, end, count, ws) && HasMore(ws[1], count) && TiesFit(rows, end, count)
    ensures OldestTS(ws[1]) < OldestTS(ws[0])
    ensures 0 < |Page(ws[0], count)| <= count
  {
    CutPage(rows, end, count, ws[0]);
    CutPagePartition(rows, end, count, ws[0]);
    assert TiesFit(rows, Some(OldestTS(ws[0])), count);
    CutPage(rows, Some(OldestTS(ws[0])), count, ws[1..][0]);
  }

  lemma {:induction false} NewestExists(pool: set<Message>) returns (m: Message)
    requires pool != {}
    ensures m in pool && forall x :: x in pool ==> x.timestamp <= m.timestamp
    decreases |pool|
  {
    m :| m in pool;
    if pool - {m} != {} {
      var n := NewestExists(pool - {m});
      m := if n.timestamp > m.timestamp then n else m;
    }
  }

  lemma TopExtends(pool: set<Message>, limit: int, m: Message, rest: seq<Message>)
    requires m in pool && forall x :: x in pool ==> x.timestamp <= m.timestamp
    requires if limit == 1 then rest == [] else IsTop(pool - {m}, limit - 1, rest)
    requires limit != 0
    ensures IsTop(pool, limit, [m] + rest)
  {
    var w := [m] + rest;
    assert Distinct(w) && Elements(w) <= pool by {
      JoinDistinct([m], rest);
    }
    forall i, j | 0 <= i < j < |w| ensures w[i].timestamp >= w[j].timestamp {
      assert w[j] == rest[j - 1] && rest[j - 1] in Elements(rest);
      if i > 0 { assert w[i] == rest[i - 1]; }
    }
    forall x | x in pool && x !in w
      ensures 0 < limit == |w| && forall i :: 0 <= i < |w| ==> x.timestamp <= w[i].timestamp
    {
      assert w[0] == m && x != m;
      assert x !in rest;
      assert forall i :: 1 <= i < |w| ==> w[i] == rest[i - 1];
    }
  }

  lemma {:induction false} TopExists(pool: set<Message>, limit: int) returns (w: seq<Message>)
    ensures IsTop(pool, limit, w)
    decreases |pool|
  {
    if pool == {} {
      w := [];
    } else {
      var l := if limit == 0 then -1 else limit;  // both mean no limit
      var m := NewestExists(pool);
      var rest := [];
      if l != 1 {
        rest := TopExists(pool - {m}, l - 1);
      }
      TopExtends(pool, l, m, rest);
      w := [m] + rest;
    }
  }

  /** If ties fit, some pagination ends; so pagination can end exactly when ties fit. */
  lemma {:induction false} CompletionExists(rows: set<Message>, end: Option<int>, count: int)
    returns (ws: seq<seq<Message>>)
    requires TiesFit(rows, end, count)
    ensures IsChain(rows, end, count, ws) && IsComplete(count, ws)
    decreases |Eligible(rows, None, end)|
  {
    var w := TopExists(Eligible(rows, None, end), count + 1);
    ws := [w];
    if HasMore(w, count) {
      CutPage(rows, end, count, w);
      CutPagePartition(rows, end, count, w);
      assert w[0] in Elements(Page(w, count));
      assert Remaining(rows, w) <= Eligible(rows, None, end) - {w[0]};
      SubsetSize(Remaining(rows, w), Eligible(rows, None, end) - {w[0]});
      var rest := CompletionExists(rows, Some(OldestTS(w)), count);
      ws := [w] + rest;
      assert ws[1..] == rest;
    }
  }

  /** Some pagination from `end` comes to an end. */
  ghost predicate CanComplete(rows: set<Message>, end: Option<int>, count: int) {
    exists ws :: IsChain(rows, end, count, ws) && IsComplete(count, ws)
  }

  /** Pagination can come to an end exactly if no timestamp has more rows than fit in a page. */
  lemma CompletesIffTiesFit(rows: set<Message>, end: Option<int>, count: int)
    ensures CanComplete(rows, end, count) <==> TiesFit(rows, end, count)
  {
    if TiesFit(rows, end, count) {
      var ws := CompletionExists(rows, end, count);
    }
    if CanComplete(rows, end, count) {
      var ws :| IsChain(rows, end, count, ws) && IsComplete(count, ws);
      CompleteOnlyIfTiesFit(rows, end, count, ws);
    }
  }

  /** It does happen that it cannot: two rows of one second, fetched one at a time. */
  lemma TwoTiesNeverComplete(a: Message, b: Message)
    requires a != b && a.timestamp == b.timestamp
    ensures !CanComplete({a, b}, None, 1)
  {
    CompletesIffTiesFit({a, b}, None, 1);
    assert AtTime({a, b}, a.timestamp) == {a, b};
    assert a in Eligible({a, b}, None, None);
  }

  /** A window that did not overflow holds everything that was asked for. */
  lemma LastPageIsFull(rows: set<Message>, start: Option<int>, end: Option<int>, count: int, w: seq<Message>)
    requires IsWindow(rows, start, end, count + 1, w) && !HasMore(w, count)
    ensures Page(w, count) == w && Elements(w) == Eligible(rows, start, end)
  {
    forall m | m in Eligible(rows, start, end) ensures m in Elements(w) {
      assert m !in w ==> 0 < count + 1 == |w|;
    }
  }

  lemma PageDistinct(w: seq<Message>, count: int)
    requires Distinct(w)
    ensures Distinct(Page(w, count))
  {
  }

  /** The first page of a pagination that goes on and ends, and what the pages after it return. */
  lemma FirstPage(rows: set<Message>, end: Option<int>, count: int, ws: seq<seq<Message>>)
    requires IsChain(rows, end, count, ws) && IsComplete(count, ws) && |ws| > 1
    ensures Distinct(Page(ws[0], count))
    ensures Elements(Page(ws[0], count)) !! Remaining(rows, ws[0])
    ensures Elements(Page(ws[0], count)) + Remaining(rows, ws[0]) == Eligible(rows, None, end)
  {
    CompleteOnlyIfTiesFit(rows, end, count, ws);
    CutPage(rows, end, count, ws[0]);
    CutPagePartition(rows, end, count, ws[0]);
    PageDistinct(ws[0], count);
  }

  /** Lossless backward pagination: a pagination that ends has returned every row up to its starting point
      exactly once, however each query broke its ties. */
  lemma {:induction false} PaginationIsLossless(rows: set<Message>, end: Option<int>, count: int, ws: seq<seq<Message>>)
    requires IsChain(rows, end, count, ws) && IsComplete(count, ws)
    ensures Elements(Returned(count, ws)) == Eligible(rows, None, end)
    ensures Distinct(Returned(count, ws))
    decreases |ws|
  {
    var page, later := Page(ws[0], count), Returned(count, ws[1..]);
    assert Returned(count, ws) == page + later;
    if |ws| > 1 {
      assert IsComplete(count, ws[1..]);
      FirstPage(rows, end, count, ws);
      PaginationIsLossless(rows, Some(OldestTS(ws[0])), count, ws[1..]);
      JoinDistinct(page, later);
    } else {
      LastPageIsFull(rows, None, end, count, ws[0]);
      assert later == [];
    }
  }

  // --- Deletion after a page ---

  /** DELETE ... WHERE timestamp <= before AND timestamp >= after. */
  function DeleteBetween(rows: set<Message>, before: int, after: int): set<Message> {
    set m | m in rows && !(after <= m.timestamp <= before)
  }

  /** The rows that go without having been returned: those at the oldest timestamp of the window that
      the page does not contain. */
  function Lost(rows: set<Message>, w: seq<Message>, count: int): set<Message>
    requires w != []
  {
    AtTime(rows, OldestTS(w)) - Elements(Page(w, count))
  }

  lemma WindowBetween(rows: set<Message>, start: Option<int>, end: Option<int>, limit: int, w: seq<Message>, m: Message)
    requires IsWindow(rows, start, end, limit, w) && w != []
    requires m in rows && OldestTS(w) < m.timestamp <= NewestTS(w)
    ensures m in Elements(w)
  {
    assert w[0] in Elements(w) && w[|w| - 1] in Elements(w);
    assert m in Eligible(rows, start, end);
    NewerIsInWindow(rows, start, end, limit, w, m);
  }

  lemma PageHasNewer(w: seq<Message>, count: int, m: Message)
    requires w != [] && NewestFirst(w) && m in Elements(w) && m.timestamp > OldestTS(w)
    ensures m in Elements(Page(w, count))
  {
    var i :| 0 <= i < |w| && w[i] == m;
    var n := NewerThan(w, OldestTS(w));
    assert i < n;
    assert m == w[..n][i];
  }

  lemma PageFromWindow(w: seq<Message>, count: int)
    ensures Elements(Page(w, count)) <= Elements(w)
  {
  }

  /** Deletion law of one page, in either direction: the rows before it are the disjoint union of the rows
      returned, the rows still stored, and the lost ones. */
  lemma DeletionLaw(rows: set<Message>, start: Option<int>, end: Option<int>, count: int, w: seq<Message>)
    requires IsWindow(rows, start, end, count + 1, w) && w != []
    ensures var page, lost := Elements(Page(w, count)), Lost(rows, w, count);
            var kept := DeleteBetween(rows, NewestTS(w), OldestTS(w));
            page !! kept !! lost && page + kept + lost == rows
  {
    var page, lost := Elements(Page(w, count)), Lost(rows, w, count);
    var kept := DeleteBetween(rows, NewestTS(w), OldestTS(w));
    PageFromWindow(w, count);
    forall m | m in page ensures m in rows && m !in kept {
      assert m in Elements(w);
      var i :| 0 <= i < |w| && w[i] == m;
      assert w[0].timestamp >= w[i].timestamp >= w[|w| - 1].timestamp;
    }
    assert NewestTS(w) >= OldestTS(w);
    forall m | m in rows ensures m in page + kept + lost {
      if OldestTS(w) < m.timestamp <= NewestTS(w) {
        WindowBetween(rows, start, end, count + 1, w, m);
        PageHasNewer(w, count, m);
      }
    }
  }

  lemma UncutLoss(rows: set<Message>, start: Option<int>, end: Option<int>, count: int, w: seq<Message>)
    requires IsWindow(rows, start, end, count + 1, w) && w != [] && NewestTS(w) == OldestTS(w)
    ensures Page(w, count) == w
    ensures Lost(rows, w, count) == {} <==> |AtTime(rows, OldestTS(w))| == |w|
  {
    var same := AtTime(rows, OldestTS(w));
    assert forall i :: 0 <= i < |w| ==> w[i].timestamp == OldestTS(w);
    assert Elements(w) <= same;
    DistinctSize(w);
    SubsetSize(Elements(w), same);
    if Lost(rows, w, count) == {} {
      forall m | m in same ensures m in Elements(w) {
        assert m !in Lost(rows, w, count);
      }
      SubsetSize(same, Elements(w));
    }
  }

  /** A page loses nothing exactly when it is the last one, or its window is a single timestamp that the
      window happened to exhaust. */
  lemma LossLaw(rows: set<Message>, start: Option<int>, end: Option<int>, count: int, w: seq<Message>)
    requires IsWindow(rows, start, end, count + 1, w) && w != []
    ensures Lost(rows, w, count) == {} <==>
              !HasMore(w, count) || (NewestTS(w) == OldestTS(w) && |AtTime(rows, OldestTS(w))| == |w|)
  {
    var last := w[|w| - 1];
    assert last in Elements(w);
    if !HasMore(w, count) {
      LastPageIsFull(rows, start, end, count, w);
      assert AtTime(rows, OldestTS(w)) <= Elements(w);
    } else if NewestTS(w) == OldestTS(w) {
      UncutLoss(rows, start, end, count, w);
    } else {
      assert NewerThan(w, OldestTS(w)) > 0;
      assert last in Lost(rows, w, count);
    }
  }

  /** Windows of a backward pagination in which each page is followed by its selective delete. */
  predicate IsDeletingChain(rows: set<Message>, end: Option<int>, count: int, ws: seq<seq<Message>>)
    decreases |ws|
  {
    ws == [] ||
    (&& IsWindow(rows, None, end, count + 1, ws[0]) && ws[0] != []
     && IsDeletingChain(DeleteBetween(rows, NewestTS(ws[0]), OldestTS(ws[0])), Some(OldestTS(ws[0])), count, ws[1..]))
  }

  function RowsAfter(rows: set<Message>, ws: seq<seq<Message>>): set<Message>
    decreases |ws|
  {
    if ws == [] || ws[0] == [] then rows
    else RowsAfter(DeleteBetween(rows, NewestTS(ws[0]), OldestTS(ws[0])), ws[1..])
  }

  function AllLost(rows: set<Message>, count: int, ws: seq<seq<Message>>): set<Message>
    decreases |ws|
  {
    if ws == [] || ws[0] == [] then {}
    else Lost(rows, ws[0], count) + AllLost(DeleteBetween(rows, NewestTS(ws[0]), OldestTS(ws[0])), count, ws[1..])
  }

  /** Conservation over a whole deleting pagination: every row is returned, still stored or lost, and
      only one of the three; no row is returned twice. */
  lemma {:induction false} DeletingRunConserves(rows: set<Message>, end: Option<int>, count: int, ws: seq<seq<Message>>)
    requires IsDeletingChain(rows, end, count, ws)
    ensures var returned, kept, lost := Elements(Returned(count, ws)), RowsAfter(rows, ws), AllLost(rows, count, ws);
            returned !! kept !! lost && returned + kept + lost == rows
    ensures Distinct(Returned(count, ws))
    decreases |ws|
  {
    if ws != [] {
      var w := ws[0];
      var rest := DeleteBetween(rows, NewestTS(w), OldestTS(w));
      var page, later := Page(w, count), Returned(count, ws[1..]);
      DeletionLaw(rows, None, end, count, w);
      DeletingRunConserves(rest, Some(OldestTS(w)), count, ws[1..]);
      assert Returned(count, ws) == page + later;
      PageDistinct(w, count);
      JoinDistinct(page, later);
    }
  }

  /** A deleting pagination always ends: each page removes at least one row. */
  lemma {:induction false} DeletingRunIsShort(rows: set<Message>, end: Option<int>, count: int, ws: seq<seq<Message>>)
    requires IsDeletingChain(rows, end, count, ws)
    ensures |ws| <= |rows|
    decreases |ws|
  {
    if ws != [] {
      var w := ws[0];
      var rest := DeleteBetween(rows, NewestTS(w), OldestTS(w));
      DeletingRunIsShort(rest, Some(OldestTS(w)), count, ws[1..]);
      assert w[0] in Elements(w);
      assert rest <= rows - {w[0]};
      SubsetSize(rest, rows - {w[0]});
    }
  }

  lemma ThreePage(a: Message, b: Message, c: Message)
    requires a.timestamp == 3 && b.timestamp == 2 && c.timestamp == 1
    ensures Page([a, b, c], 2) == [a, b]
  {
    var w := [a, b, c];
    assert w[1..] == [b, c] && [b, c][1..] == [c];
    assert NewerThan([c], 1) == 0 && NewerThan([b, c], 1) == 1 && NewerThan(w, 1) == 2;
  }

  /** The loss is real: with a page size of two, three messages a second apart yield two. */
  lemma SelectiveDeleteLosesRow(a: Message, b: Message, c: Message)
    requires a.timestamp == 3 && b.timestamp == 2 && c.timestamp == 1
    ensures var rows, w := {a, b, c}, [a, b, c];
            && IsWindow(rows, None, None, 3, w) && Elements(Page(w, 2)) == {a, b}
            && Lost(rows, w, 2) == {c} && DeleteBetween(rows, NewestTS(w), OldestTS(w)) == {}
  {
    ThreePage(a, b, c);
    var w := [a, b, c];
    assert Elements(w) == {a, b, c};
    assert Elements([a, b]) == {a, b};
    assert AtTime({a, b, c}, 1) == {c};
  }
}

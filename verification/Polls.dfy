/**
  Polls made in Matrix: their options get a hash when the poll is sent (pkg/msgconv/matrixpoll.go), the
  hashes are stored with the option IDs (pkg/connector/wadb/polloption.go), and votes are translated by that
  table in both directions (pkg/msgconv/wa-poll.go). The hash is any function.
 */
module Polls {
  import opened Wrappers

  type EventID = string
  type OptionID = string
  type Hash = h: string | |h| == 32 witness "00000000000000000000000000000000"

  datatype Answer = Answer(id: OptionID, body: string)

  datatype StartError = MissingQuestion | DuplicateOption

  // A row of the option table.
  datatype Row = Row(mxid: EventID, id: OptionID, hash: Hash)

  // --- Starting a poll ---

  predicate DistinctHashes(answers: seq<Answer>, sha: string -> Hash) {
    forall i, j :: 0 <= i < j < |answers| ==> sha(answers[i].body) != sha(answers[j].body)
  }

  predicate DistinctIDs(answers: seq<Answer>) {
    forall i, j :: 0 <= i < j < |answers| ==> answers[i].id != answers[j].id
  }

  /** The map holds just the answers' hashes, each with the ID of its answer. */
  ghost predicate MapsHashes(m: map<Hash, OptionID>, answers: seq<Answer>, sha: string -> Hash) {
    && (forall i :: 0 <= i < |answers| ==> sha(answers[i].body) in m && m[sha(answers[i].body)] == answers[i].id)
    && (forall h :: h in m ==> exists i :: 0 <= i < |answers| && h == sha(answers[i].body))
  }

  datatype PollStart = PollStart(options: seq<string>, selectable: nat, optionMap: map<Hash, OptionID>)

  lemma ExtendMap(m: map<Hash, OptionID>, xs: seq<Answer>, a: Answer, sha: string -> Hash)
    requires MapsHashes(m, xs, sha) && sha(a.body) !in m
    ensures MapsHashes(m[sha(a.body) := a.id], xs + [a], sha)
  {
    var n, ys := m[sha(a.body) := a.id], xs + [a];
    assert forall j :: 0 <= j < |xs| ==> ys[j] == xs[j];
    forall h | h in n ensures exists j :: 0 <= j < |ys| && h == sha(ys[j].body) {
      if h in m {
        var j :| 0 <= j < |xs| && h == sha(xs[j].body);
        assert h == sha(ys[j].body);
      } else {
        assert h == sha(ys[|xs|].body);
      }
    }
  }

  lemma ExtendDistinct(m: map<Hash, OptionID>, xs: seq<Answer>, a: Answer, sha: string -> Hash)
    requires MapsHashes(m, xs, sha) && DistinctHashes(xs, sha) && sha(a.body) !in m
    ensures DistinctHashes(xs + [a], sha)
  {
  }

  lemma OneMoreOption(m: map<Hash, OptionID>, answers: seq<Answer>, i: nat, sha: string -> Hash)
    requires i < |answers| && MapsHashes(m, answers[..i], sha) && DistinctHashes(answers[..i], sha)
    requires sha(answers[i].body) !in m
    ensures MapsHashes(m[sha(answers[i].body) := answers[i].id], answers[..i + 1], sha)
    ensures DistinctHashes(answers[..i + 1], sha)
  {
    var xs, a := answers[..i], answers[i];
    assert answers[..i + 1] == xs + [a];
    ExtendMap(m, xs, a, sha);
    ExtendDistinct(m, xs, a, sha);
  }

  /** A poll is refused if it has no question, and if two options have the same hash. */
  method PollStartToWhatsApp(question: string, answers: seq<Answer>, maxSelections: int, sha: string -> Hash)
    returns (r: Result<PollStart, StartError>)
    ensures r == Err(MissingQuestion) <==> question == ""
    ensures r == Err(DuplicateOption) <==> question != "" && !DistinctHashes(answers, sha)
    ensures r.Ok? ==> |r.value.options| == |answers| && MapsHashes(r.value.optionMap, answers, sha)
                      && (forall i :: 0 <= i < |answers| ==> r.value.options[i] == answers[i].body)
                      && r.value.selectable == (if 0 <= maxSelections < |answers| then maxSelections else 0)
  {
    var maxAnswers := maxSelections;
    if maxAnswers >= |answers| || maxAnswers < 0 {
      maxAnswers := 0;
    }
    if |question| == 0 {
      return Err(MissingQuestion);
    }
    var options := new string[|answers|];
    var optionMap: map<Hash, OptionID> := map[];
    for i := 0 to |answers|
      invariant forall j :: 0 <= j < i ==> options[j] == answers[j].body
      invariant DistinctHashes(answers[..i], sha) && MapsHashes(optionMap, answers[..i], sha)
    {
      ghost var before := optionMap;
      var hash := sha(answers[i].body);
      if hash in optionMap {
        assert exists j :: 0 <= j < i && hash == sha(answers[..i][j].body);
        return Err(DuplicateOption);
      }
      optionMap := optionMap[hash := answers[i].id];
      options[i] := answers[i].body;
      OneMoreOption(before, answers, i, sha);
    }
    assert answers[..|answers|] == answers;
    r := Ok(PollStart(options[..], maxAnswers, optionMap));
  }

  // --- The table ---

  /** The primary key and the unique constraint: in one poll no ID and no hash occurs twice. */
  predicate Consistent(rows: set<Row>) {
    forall r, q :: r in rows && q in rows && r.mxid == q.mxid && (r.id == q.id || r.hash == q.hash) ==> r == q
  }

  function OptionRows(mxid: EventID, opts: map<Hash, OptionID>): set<Row> {
    set h | h in opts :: Row(mxid, opts[h], h)
  }

  predicate CanInsert(rows: set<Row>, added: set<Row>) {
    rows !! added && Consistent(rows + added)
  }

  function PutRows(rows: set<Row>, mxid: EventID, opts: map<Hash, OptionID>): set<Row> {
    if CanInsert(rows, OptionRows(mxid, opts)) then rows + OptionRows(mxid, opts) else rows
  }

  /** A map from rows, which the rows must determine. */
  ghost predicate MapsRows<K, V>(m: map<K, V>, rows: set<Row>, key: Row -> K, value: Row -> V) {
    && (forall r :: r in rows ==> key(r) in m && m[key(r)] == value(r))
    && (forall k :: k in m ==> exists r :: r in rows && key(r) == k)
  }

  method RowsAsMap<K(==), V(==)>(rows: set<Row>, key: Row -> K, value: Row -> V) returns (m: map<K, V>)
    requires forall r, q :: r in rows && q in rows && key(r) == key(q) ==> r == q
    ensures MapsRows(m, rows, key, value)
  {
    m := map[];
    var left := rows;
    while left != {}
      invariant left <= rows && MapsRows(m, rows - left, key, value)
      decreases left
    {
      ghost var before, done := m, rows - left;
      var row :| row in left;
      left := left - {row};
      m := m[key(row) := value(row)];
      assert rows - left == done + {row};
      forall k | k in m ensures exists r :: r in rows - left && key(r) == k {
        if k == key(row) {
          assert row in rows - left;
        } else {
          var r :| r in done && key(r) == k;
          assert r in rows - left;
        }
      }
    }
    assert rows - left == rows;
  }

  // --- Votes ---

  ghost predicate HasHash(rows: set<Row>, mxid: EventID, h: string) {
    |h| == 32 && exists id :: Row(mxid, id, h) in rows
  }

  ghost function IDFor(rows: set<Row>, mxid: EventID, h: string): (id: OptionID)
    ensures HasHash(rows, mxid, h) ==> Row(mxid, id, h) in rows
    ensures !HasHash(rows, mxid, h) ==> id == ""
  {
    if HasHash(rows, mxid, h) then var id :| Row(mxid, id, h) in rows; id else ""
  }

  function ByHash(rows: set<Row>, mxid: EventID, hashes: seq<string>): set<Row> {
    set r | r in rows && r.mxid == mxid && r.hash in hashes
  }

  function RowID(r: Row): OptionID { r.id }
  function RowHash(r: Row): Hash { r.hash }

  lemma IncomingOne(rows: set<Row>, mxid: EventID, hashes: seq<string>, h: string, m: map<Hash, OptionID>)
    requires Consistent(rows) && h in hashes && MapsRows(m, ByHash(rows, mxid, hashes), RowHash, RowID)
    ensures |h| == 32 ==> (h in m <==> HasHash(rows, mxid, h))
    ensures IDFor(rows, mxid, h) == if |h| == 32 && h in m then m[h] else ""
  {
    if HasHash(rows, mxid, h) {
      var r := Row(mxid, IDFor(rows, mxid, h), h);
      assert r in ByHash(rows, mxid, hashes) && RowHash(r) == h;
    }
    if |h| == 32 && h in m {
      var r :| r in ByHash(rows, mxid, hashes) && RowHash(r) == h;
      assert Row(mxid, r.id, h) in rows;
    }
  }

  ghost predicate HasID(rows: set<Row>, mxid: EventID, id: OptionID) {
    exists h: Hash :: Row(mxid, id, h) in rows
  }

  ghost function HashFor(rows: set<Row>, mxid: EventID, id: OptionID): (h: Hash)
    requires HasID(rows, mxid, id)
    ensures Row(mxid, id, h) in rows
  {
    var h: Hash :| Row(mxid, id, h) in rows; h
  }

  function ByID(rows: set<Row>, mxid: EventID, ids: seq<OptionID>): set<Row> {
    set r | r in rows && r.mxid == mxid && r.id in ids
  }

  lemma OutgoingOne(rows: set<Row>, mxid: EventID, ids: seq<OptionID>, id: OptionID, m: map<OptionID, Hash>)
    requires Consistent(rows) && id in ids && MapsRows(m, ByID(rows, mxid, ids), RowID, RowHash)
    ensures id in m <==> HasID(rows, mxid, id)
    ensures id in m ==> m[id] == HashFor(rows, mxid, id)
  {
    if HasID(rows, mxid, id) {
      var r := Row(mxid, id, HashFor(rows, mxid, id));
      assert r in ByID(rows, mxid, ids) && RowID(r) == id;
    }
    if id in m {
      var r :| r in ByID(rows, mxid, ids) && RowID(r) == id;
      assert Row(mxid, id, r.hash) in rows;
    }
  }

  ghost function Incoming(rows: set<Row>, mxid: EventID, selected: seq<string>): (r: seq<OptionID>)
    ensures |r| == |selected| && forall i :: 0 <= i < |r| ==> r[i] == IDFor(rows, mxid, selected[i])
  {
    seq(|selected|, i requires 0 <= i < |selected| => IDFor(rows, mxid, selected[i]))
  }

  ghost function Outgoing(rows: set<Row>, mxid: EventID, answers: seq<OptionID>): seq<Hash> {
    if answers == [] then []
    else
      var init, last := answers[..|answers| - 1], answers[|answers| - 1];
      Outgoing(rows, mxid, init) + (if HasID(rows, mxid, last) then [HashFor(rows, mxid, last)] else [])
  }

  class PollOptionTable {
    var rows: set<Row>

    /** One INSERT for all options, which fails as a whole. */
    method Put(mxid: EventID, opts: map<Hash, OptionID>) returns (ok: bool)
      requires Consistent(rows)
      modifies this
      ensures Consistent(rows) && rows == PutRows(old(rows), mxid, opts)
      ensures ok <==> CanInsert(old(rows), OptionRows(mxid, opts))
    {
      if |opts| == 0 {
        assert OptionRows(mxid, opts) == {};
        assert rows + {} == rows;
        return true;
      }
      var optArray: seq<Row> := [];
      var left := opts.Keys;
      while left != {}
        invariant left <= opts.Keys
        invariant forall h :: h in opts && h !in left ==> Row(mxid, opts[h], h) in optArray
        invariant forall r :: r in optArray ==> r.hash in opts && r == Row(mxid, opts[r.hash], r.hash)
        decreases left
      {
        var hash :| hash in left;
        left := left - {hash};
        optArray := optArray + [Row(mxid, opts[hash], hash)];
      }
      var added := set r | r in optArray;
      assert added == OptionRows(mxid, opts);
      ok := CanInsert(rows, added);
      if ok {
        rows := rows + added;
      }
    }

    method GetHashes(mxid: EventID, ids: seq<OptionID>) returns (m: map<OptionID, Hash>)
      requires Consistent(rows)
      ensures MapsRows(m, ByID(rows, mxid, ids), RowID, RowHash)
    {
      m := RowsAsMap(ByID(rows, mxid, ids), RowID, RowHash);
    }

    method GetIDs(mxid: EventID, hashes: seq<string>) returns (m: map<Hash, OptionID>)
      requires Consistent(rows)
      ensures MapsRows(m, ByHash(rows, mxid, hashes), RowHash, RowID)
    {
      m := RowsAsMap(ByHash(rows, mxid, hashes), RowHash, RowID);
    }

    /** The hashes of the options a Matrix user chose; an ID that is not in the table is left out. */
    method PollVoteToWhatsApp(mxid: EventID, answers: seq<OptionID>) returns (optionHashes: seq<Hash>)
      requires Consistent(rows)
      ensures optionHashes == Outgoing(rows, mxid, answers)
    {
      var mappedAnswers := GetHashes(mxid, answers);
      optionHashes := [];
      for i := 0 to |answers|
        invariant optionHashes == Outgoing(rows, mxid, answers[..i])
      {
        assert answers[..i + 1][..i] == answers[..i];
        OutgoingOne(rows, mxid, answers, answers[i], mappedAnswers);
        if answers[i] in mappedAnswers {
          optionHashes := optionHashes + [mappedAnswers[answers[i]]];
        }
      }
      assert answers[..|answers|] == answers;
    }

    /** The option IDs of an incoming vote; what is not in the table leaves an empty string. */
    method ConvertPollUpdate(mxid: EventID, selected: seq<string>) returns (answers: seq<OptionID>)
      requires Consistent(rows)
      ensures answers == Incoming(rows, mxid, selected)
    {
      var selectedHashes := new OptionID[|selected|](_ => "");
      var mappedAnswers := GetIDs(mxid, selected);
      for i := 0 to |selected|
        invariant forall j :: 0 <= j < i ==> selectedHashes[j] == IDFor(rows, mxid, selected[j])
        invariant forall j :: i <= j < |selected| ==> selectedHashes[j] == ""
      {
        var opt := selected[i];
        IncomingOne(rows, mxid, selected, opt, mappedAnswers);
        if |opt| != 32 {
          continue;
        }
        selectedHashes[i] := if opt in mappedAnswers then mappedAnswers[opt] else "";
      }
      answers := selectedHashes[..];
    }
  }

  // --- Round trip ---

  /** The chosen IDs that are in the table, in their order. */
  ghost function Known(rows: set<Row>, mxid: EventID, answers: seq<OptionID>): seq<OptionID> {
    if answers == [] then []
    else
      var init, last := answers[..|answers| - 1], answers[|answers| - 1];
      Known(rows, mxid, init) + (if HasID(rows, mxid, last) then [last] else [])
  }

  /** Any consistent table takes a vote out and back in again. */
  lemma {:induction false} VoteComesBack(rows: set<Row>, mxid: EventID, answers: seq<OptionID>)
    requires Consistent(rows)
    ensures Incoming(rows, mxid, Outgoing(rows, mxid, answers)) == Known(rows, mxid, answers)
  {
    if answers != [] {
      var last := answers[|answers| - 1];
      VoteComesBack(rows, mxid, answers[..|answers| - 1]);
      if HasID(rows, mxid, last) {
        var h := HashFor(rows, mxid, last);
        assert Row(mxid, last, h) in rows && HasHash(rows, mxid, h);
        assert IDFor(rows, mxid, h) == last;
      }
    }
  }

  predicate HasOption(answers: seq<Answer>, id: OptionID) {
    exists i :: 0 <= i < |answers| && answers[i].id == id
  }

  function Filtered(answers: seq<Answer>, chosen: seq<OptionID>): seq<OptionID> {
    if chosen == [] then []
    else
      var init, last := chosen[..|chosen| - 1], chosen[|chosen| - 1];
      Filtered(answers, init) + (if HasOption(answers, last) then [last] else [])
  }

  /** A new poll's options can be stored exactly if their IDs differ. */
  lemma InsertIffDistinctIDs(rows: set<Row>, mxid: EventID, opts: map<Hash, OptionID>, answers: seq<Answer>,
                             sha: string -> Hash)
    requires Consistent(rows) && forall r :: r in rows ==> r.mxid != mxid
    requires DistinctHashes(answers, sha) && MapsHashes(opts, answers, sha)
    ensures CanInsert(rows, OptionRows(mxid, opts)) <==> DistinctIDs(answers)
  {
    var added := OptionRows(mxid, opts);
    if DistinctIDs(answers) {
      forall r, q | r in added && q in added && r.id == q.id ensures r == q {
        var i :| 0 <= i < |answers| && r.hash == sha(answers[i].body);
        var j :| 0 <= j < |answers| && q.hash == sha(answers[j].body);
      }
    } else {
      var i, j :| 0 <= i < j < |answers| && answers[i].id == answers[j].id;
      var r := Row(mxid, answers[i].id, sha(answers[i].body));
      var q := Row(mxid, answers[j].id, sha(answers[j].body));
      assert r in added && q in added && r != q;
    }
  }

  lemma StoredIDs(rows: set<Row>, mxid: EventID, opts: map<Hash, OptionID>, answers: seq<Answer>,
                  sha: string -> Hash, id: OptionID)
    requires (forall r :: r in rows ==> r.mxid != mxid) && MapsHashes(opts, answers, sha)
    ensures HasID(rows + OptionRows(mxid, opts), mxid, id) <==> HasOption(answers, id)
  {
    var all := rows + OptionRows(mxid, opts);
    if HasID(all, mxid, id) {
      var h: Hash :| Row(mxid, id, h) in all;
      var i :| 0 <= i < |answers| && h == sha(answers[i].body);
      assert answers[i].id == id;
    }
    if HasOption(answers, id) {
      var i :| 0 <= i < |answers| && answers[i].id == id;
      assert Row(mxid, id, sha(answers[i].body)) in all;
    }
  }

  lemma {:induction false} KnownIsFiltered(rows: set<Row>, mxid: EventID, opts: map<Hash, OptionID>,
                                          answers: seq<Answer>, sha: string -> Hash, chosen: seq<OptionID>)
    requires (forall r :: r in rows ==> r.mxid != mxid) && MapsHashes(opts, answers, sha)
    ensures Known(rows + OptionRows(mxid, opts), mxid, chosen) == Filtered(answers, chosen)
  {
    if chosen != [] {
      KnownIsFiltered(rows, mxid, opts, answers, sha, chosen[..|chosen| - 1]);
      StoredIDs(rows, mxid, opts, answers, sha, chosen[|chosen| - 1]);
    }
  }

  lemma {:induction false} NothingKnown(rows: set<Row>, mxid: EventID, chosen: seq<OptionID>)
    requires forall r :: r in rows ==> r.mxid != mxid
    ensures Known(rows, mxid, chosen) == []
  {
    if chosen != [] {
      NothingKnown(rows, mxid, chosen[..|chosen| - 1]);
    }
  }

  /** A poll made in Matrix and accepted: if its option IDs differ, a vote sent to WhatsApp comes back with
      exactly the chosen options that the poll has, in order; if not, the options are never stored and every
      vote arrives empty. Nothing is assumed of the hash. */
  lemma PollVotesRoundTrip(rows: set<Row>, mxid: EventID, answers: seq<Answer>, sha: string -> Hash,
                           opts: map<Hash, OptionID>, chosen: seq<OptionID>)
    requires Consistent(rows) && forall r :: r in rows ==> r.mxid != mxid
    requires DistinctHashes(answers, sha) && MapsHashes(opts, answers, sha)
    ensures var stored := PutRows(rows, mxid, opts);
            && Consistent(stored)
            && Incoming(stored, mxid, Outgoing(stored, mxid, chosen))
               == if DistinctIDs(answers) then Filtered(answers, chosen) else []
  {
    InsertIffDistinctIDs(rows, mxid, opts, answers, sha);
    VoteComesBack(PutRows(rows, mxid, opts), mxid, chosen);
    if DistinctIDs(answers) {
      KnownIsFiltered(rows, mxid, opts, answers, sha, chosen);
    } else {
      NothingKnown(rows, mxid, chosen);
    }
  }
}

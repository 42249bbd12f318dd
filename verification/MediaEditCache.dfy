/**
  The cache that lets media captions be edited (pkg/connector/mediaeditcache.go): a map that is added to,
  read and swept. Times are in seconds.
 */
module MediaEditCache {
  import opened Wrappers

  datatype Key = Key(messageID: string, portalMXID: string)

  datatype Part = Part(isSticker: bool, isMedia: bool, content: string)

  datatype Value = Value(part: Part, expiry: int)

  type Cache = map<Key, Value>

  const EDIT_MAX_AGE := 15 * 60
  const KEEP := EDIT_MAX_AGE + 5 * 60

  predicate Cached(part: Part) {
    part.isSticker || part.isMedia
  }

  function Added(cache: Cache, now: int, key: Key, part: Part): Cache {
    if Cached(part) then cache[key := Value(part, now + KEEP)] else cache
  }

  /** What a sweep leaves, if it gets to each key at the time `checkedAt` gives. */
  function Swept(cache: Cache, checkedAt: Key -> int): Cache {
    map key | key in cache && cache[key].expiry >= checkedAt(key) :: cache[key]
  }

  function Read(v: Option<Value>, now: int): Option<Part> {
    if v.None? || v.value.expiry < now then None else Some(v.value.part)
  }

  function Find(cache: Cache, key: Key): Option<Value> {
    if key in cache then Some(cache[key]) else None
  }

  class Connector {
    var cache: Cache

    method AddMediaEditCache(key: Key, converted: Part, now: int)
      modifies this
      ensures cache == Added(old(cache), now, key, converted)
      ensures converted.isSticker || converted.isMedia ==> key in cache && cache[key] == Value(converted, now + 20 * 60)
      ensures !converted.isSticker && !converted.isMedia ==> cache == old(cache)
    {
      if !converted.isSticker && !converted.isMedia { return; }
      cache := cache[key := Value(converted, now + KEEP)];
    }

    method GetMediaEditCache(key: Key, now: int) returns (r: Option<Part>)
      ensures r == Read(Find(cache, key), now)
      ensures r.Some? <==> key in cache && now <= cache[key].expiry
      ensures r.Some? ==> r.value == cache[key].part
    {
      if key !in cache || cache[key].expiry < now { return None; }
      r := Some(cache[key].part);
    }

    /** The keys are visited in any order, and the clock is read again for each. */
    method ExpireMediaEditCache(checkedAt: Key -> int)
      modifies this
      ensures cache == Swept(old(cache), checkedAt)
    {
      var left := cache.Keys;
      while left != {}
        invariant left <= cache.Keys <= old(cache).Keys
        invariant forall k :: k in cache ==> cache[k] == old(cache)[k]
        invariant forall k :: k in old(cache) && k !in left ==> (k in cache <==> old(cache)[k].expiry >= checkedAt(k))
        decreases left
      {
        var key :| key in left;
        left := left - {key};
        if cache[key].expiry < checkedAt(key) {
          cache := cache - {key};
        }
      }
    }
  }

  // --- Whole histories ---

  // What happens to the cache; a sweep takes from `start` to `end`.
  datatype Op = Add(now: int, key: Key, part: Part) | Get(now: int, key: Key)
              | Sweep(start: int, end: int, checkedAt: Key -> int)

  function Start(op: Op): int {
    if op.Sweep? then op.start else op.now
  }

  function End(op: Op): int {
    if op.Sweep? then op.end else op.now
  }

  /** The clock never goes back, also not within a sweep, and `now` is not before the last operation's end. */
  ghost predicate Ordered(ops: seq<Op>, now: int) {
    ops == [] ||
    var op := ops[|ops| - 1];
    && Start(op) <= End(op) <= now && Ordered(ops[..|ops| - 1], Start(op))
    && (op.Sweep? ==> forall key :: op.start <= op.checkedAt(key) <= op.end)
  }

  function Do(cache: Cache, op: Op): Cache {
    match op
    case Add(now, key, part) => Added(cache, now, key, part)
    case Get(_, _) => cache
    case Sweep(_, _, checkedAt) => Swept(cache, checkedAt)
  }

  function After(ops: seq<Op>): Cache {
    if ops == [] then map[] else Do(After(ops[..|ops| - 1]), ops[|ops| - 1])
  }

  /** The last thing added under the key, as a log that is never swept would have it. */
  function Latest(ops: seq<Op>, key: Key): Option<Value> {
    if ops == [] then None
    else
      var op := ops[|ops| - 1];
      if op.Add? && op.key == key && Cached(op.part) then Some(Value(op.part, op.now + KEEP))
      else Latest(ops[..|ops| - 1], key)
  }

  /** The cache has the latest addition, unless that has expired and been swept away. */
  lemma {:induction false} CacheIsLatest(ops: seq<Op>, key: Key, now: int)
    requires Ordered(ops, now)
    ensures Find(After(ops), key) == Latest(ops, key)
            || (Find(After(ops), key) == None && Latest(ops, key).Some? && Latest(ops, key).value.expiry < now)
  {
    if ops != [] {
      CacheIsLatest(ops[..|ops| - 1], key, Start(ops[|ops| - 1]));
    }
  }

  /** Sweeping cannot be observed: wherever the sweeps fall, reading gives what the log would. */
  lemma {:induction false} SweepingIsUnobservable(ops: seq<Op>, key: Key, now: int)
    requires Ordered(ops, now)
    ensures Read(Find(After(ops), key), now) == Read(Latest(ops, key), now)
  {
    CacheIsLatest(ops, key, now);
  }

  function WithoutSweeps(ops: seq<Op>): seq<Op> {
    if ops == [] then []
    else WithoutSweeps(ops[..|ops| - 1]) + (if ops[|ops| - 1].Sweep? then [] else [ops[|ops| - 1]])
  }

  /** So a history with its sweeps left out reads the same. */
  lemma {:induction false} LogHasNoSweeps(ops: seq<Op>, key: Key)
    ensures Latest(WithoutSweeps(ops), key) == Latest(ops, key)
  {
    if ops != [] {
      var rest, op := ops[..|ops| - 1], ops[|ops| - 1];
      LogHasNoSweeps(rest, key);
      var w := WithoutSweeps(ops);
      if op.Sweep? {
        assert w == WithoutSweeps(rest);
      } else {
        assert w[..|w| - 1] == WithoutSweeps(rest) && w[|w| - 1] == op;
      }
    }
  }

  lemma Later(ops: seq<Op>, now: int, later: int)
    requires Ordered(ops, now) && now <= later
    ensures Ordered(ops, later)
  {
  }

  lemma {:induction false} ClockWithoutSweeps(ops: seq<Op>, now: int)
    requires Ordered(ops, now)
    ensures Ordered(WithoutSweeps(ops), now)
  {
    if ops != [] {
      var rest, op := ops[..|ops| - 1], ops[|ops| - 1];
      ClockWithoutSweeps(rest, Start(op));
      var w := WithoutSweeps(ops);
      if op.Sweep? {
        assert w == WithoutSweeps(rest);
        Later(w, Start(op), now);
      } else {
        assert w[..|w| - 1] == WithoutSweeps(rest) && w[|w| - 1] == op;
      }
    }
  }

  lemma NeverSweptReadsTheSame(ops: seq<Op>, key: Key, now: int)
    requires Ordered(ops, now)
    ensures Read(Find(After(ops), key), now) == Read(Find(After(WithoutSweeps(ops)), key), now)
  {
    SweepingIsUnobservable(ops, key, now);
    ClockWithoutSweeps(ops, now);
    SweepingIsUnobservable(WithoutSweeps(ops), key, now);
    LogHasNoSweeps(ops, key);
  }

  predicate NothingAdded(ops: seq<Op>, key: Key) {
    forall i :: 0 <= i < |ops| && ops[i].Add? && ops[i].key == key ==> !ops[i].part.isSticker && !ops[i].part.isMedia
  }

  lemma {:induction false} LatestOfMore(ops: seq<Op>, more: seq<Op>, key: Key)
    requires NothingAdded(more, key)
    ensures Latest(ops + more, key) == Latest(ops, key)
    decreases |more|
  {
    if more == [] {
      assert ops + more == ops;
    } else {
      var n := |more| - 1;
      assert (ops + more)[..|ops + more| - 1] == ops + more[..n] && (ops + more)[|ops + more| - 1] == more[n];
      LatestOfMore(ops, more[..n], key);
    }
  }

  /** A sticker or media message is found under its key for twenty minutes after it was added, and not after that,
      unless another one is added under the key. */
  lemma FoundForTwentyMinutes(ops: seq<Op>, add: Op, more: seq<Op>, now: int)
    requires add.Add? && (add.part.isSticker || add.part.isMedia) && NothingAdded(more, add.key)
    requires Ordered(ops + [add] + more, now)
    ensures Read(Find(After(ops + [add] + more), add.key), now)
         == if now <= add.now + 20 * 60 then Some(add.part) else None
  {
    SweepingIsUnobservable(ops + [add] + more, add.key, now);
    LatestOfMore(ops + [add], more, add.key);
    assert (ops + [add])[..|ops|] == ops;
  }
}

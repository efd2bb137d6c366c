/** The expiring in-memory cache, and the history it stands for. */
module CacheStore {
  import opened Wrappers

  datatype Response = Response(body: string, status: int, statusText: string)

  datatype Slot = Slot(response: Response, expiry: int)

  /** An operation on the cache and the time it takes effect. */
  datatype Op =
    | Get(key: string, at: int)
    | Set(key: string, response: Response, maxAge: int, at: int)
    | Delete(key: string, at: int)
    | Clear(at: int)
    | Cleanup(at: int)

  type Cache = map<string, Slot>

  /** What a `get` at time `now` returns. */
  function Visible(cache: Cache, key: string, now: int): Option<Response> {
    if key in cache && now <= cache[key].expiry then Some(cache[key].response) else None
  }

  /** A `get` evicts its key if it has expired, a cleanup evicts every expired key. */
  function Apply(cache: Cache, op: Op): Cache {
    match op
    case Get(k, at) => if k in cache && at > cache[k].expiry then cache - {k} else cache
    case Set(k, r, maxAge, at) => cache[k := Slot(r, at + maxAge)]
    case Delete(k, _) => cache - {k}
    case Clear(_) => map[]
    case Cleanup(at) => map k | k in cache && at <= cache[k].expiry :: cache[k]
  }

  class MemoryCacheStore {
    var cache: Cache

    constructor ()
      ensures cache == map[]
    {
      cache := map[];
    }

    method GetResponse(key: string, now: int) returns (r: Option<Response>)
      modifies this
      ensures r == Visible(old(cache), key, now)
      ensures cache == Apply(old(cache), Get(key, now))
    {
      if key !in cache {
        return None;
      }
      var cached := cache[key];
      if now > cached.expiry {
        cache := cache - {key};
        return None;
      }
      return Some(cached.response);
    }

    method SetResponse(key: string, value: Response, maxAge: int, now: int)
      modifies this
      ensures cache == Apply(old(cache), Set(key, value, maxAge, now))
    {
      cache := cache[key := Slot(value, now + maxAge)];
    }

    method DeleteKey(key: string, now: int)
      modifies this
      ensures cache == Apply(old(cache), Delete(key, now))
    {
      cache := cache - {key};
    }

    method ClearAll(now: int)
      modifies this
      ensures cache == Apply(old(cache), Clear(now))
    {
      cache := map[];
    }

    method CleanupExpired(now: int) returns (deletedCount: nat)
      modifies this
      ensures cache == Apply(old(cache), Cleanup(now))
      ensures deletedCount == |old(cache)| - |cache|
    {
      deletedCount := 0;
      var todo := cache.Keys;
      while todo != {}
        invariant todo <= cache.Keys <= old(cache).Keys
        invariant cache == map k | k in old(cache) && (k in todo || now <= old(cache)[k].expiry) :: old(cache)[k]
        invariant deletedCount == |old(cache)| - |cache|
        decreases todo
      {
        var key :| key in todo;
        todo := todo - {key};
        if now > cache[key].expiry {
          ghost var before := cache;
          cache := cache - {key};
          assert before.Keys == cache.Keys + {key};
          assert |before| == |before.Keys| && |cache| == |cache.Keys|;
          deletedCount := deletedCount + 1;
        }
      }
    }
  }

  // ------------------------------------------------------------- the history

  function Run(ops: seq<Op>): Cache {
    if ops == [] then map[] else Apply(Run(ops[..|ops| - 1]), ops[|ops| - 1])
  }

  /** A set or delete of the key, or a clear. */
  predicate Decides(op: Op, key: string) {
    ((op.Set? || op.Delete?) && op.key == key) || op.Clear?
  }

  /** The latest operation that decides the key. */
  function Deciding(ops: seq<Op>, key: string): Option<Op> {
    if ops == [] then None
    else if Decides(ops[|ops| - 1], key) then Some(ops[|ops| - 1])
    else Deciding(ops[..|ops| - 1], key)
  }

  /** The slot a set leaves behind. */
  function SlotOf(op: Option<Op>): Option<Slot> {
    if op.Some? && op.value.Set? then Some(Slot(op.value.response, op.value.at + op.value.maxAge)) else None
  }

  /** What the history alone says a `get` must return. */
  function Expected(ops: seq<Op>, key: string, now: int): Option<Response> {
    var op := Deciding(ops, key);
    if op.Some? && op.value.Set? && now <= op.value.at + op.value.maxAge then Some(op.value.response) else None
  }

  /** A get of the key or a cleanup, at a time past `expiry`. */
  predicate Evicts(op: Op, key: string, expiry: int) {
    ((op.Get? && op.key == key) || op.Cleanup?) && op.at > expiry
  }

  /** Something after the deciding operation evicts an entry that expires at `expiry`. */
  predicate Evicted(ops: seq<Op>, key: string, expiry: int) {
    ops != [] && !Decides(ops[|ops| - 1], key)
    && (Evicts(ops[|ops| - 1], key, expiry) || Evicted(ops[..|ops| - 1], key, expiry))
  }

  /** The cache holds exactly the slot of a deciding set that nothing has evicted since. */
  lemma {:induction false} HoldsLastSet(ops: seq<Op>, key: string)
    ensures var slot := SlotOf(Deciding(ops, key));
      && (key in Run(ops) <==> slot.Some? && !Evicted(ops, key, slot.value.expiry))
      && (key in Run(ops) ==> Run(ops)[key] == slot.value)
  {
    if ops != [] {
      HoldsLastSet(ops[..|ops| - 1], key);
    }
  }

  /** The cache refines its history, whatever the clock does: a `get` returns what
      the deciding operation says if and only if that is not an unexpired set
      which a get of the key or a cleanup has met at a later time than its expiry. */
  lemma CacheRefinesHistoryIff(ops: seq<Op>, key: string, now: int)
    ensures Visible(Run(ops), key, now) == Expected(ops, key, now)
       <==> (Expected(ops, key, now).Some? ==> !Evicted(ops, key, SlotOf(Deciding(ops, key)).value.expiry))
  {
    HoldsLastSet(ops, key);
  }

  /** The clock never goes back, up to `now`. */
  ghost predicate Timed(ops: seq<Op>, now: int) {
    && (forall i, j :: 0 <= i < j < |ops| ==> ops[i].at <= ops[j].at)
    && (forall i :: 0 <= i < |ops| ==> ops[i].at <= now)
  }

  lemma {:induction false} EvictionIsPast(ops: seq<Op>, key: string, expiry: int, now: int)
    requires Timed(ops, now) && Evicted(ops, key, expiry)
    ensures expiry < now
  {
    assert ops[|ops| - 1].at <= now;
    if !Evicts(ops[|ops| - 1], key, expiry) {
      EvictionIsPast(ops[..|ops| - 1], key, expiry, now);
    }
  }

  /** So under a clock that does not go back a `get` returns a response exactly when
      the deciding operation is a set that has not expired, and then that response. */
  lemma CacheRefinesHistory(ops: seq<Op>, key: string, now: int)
    requires Timed(ops, now)
    ensures Visible(Run(ops), key, now) == Expected(ops, key, now)
  {
    CacheRefinesHistoryIff(ops, key, now);
    var slot := SlotOf(Deciding(ops, key));
    if slot.Some? && Evicted(ops, key, slot.value.expiry) {
      EvictionIsPast(ops, key, slot.value.expiry, now);
    }
  }

  lemma LastOp(ops: seq<Op>, op: Op, key: string, expiry: int)
    ensures Deciding(ops + [op], key) == if Decides(op, key) then Some(op) else Deciding(ops, key)
    ensures Evicted(ops + [op], key, expiry)
       <==> !Decides(op, key) && (Evicts(op, key, expiry) || Evicted(ops, key, expiry))
  {
    assert (ops + [op])[..|ops|] == ops;
  }

  lemma FrontAndLast(a: seq<Op>, b: seq<Op>)
    requires b != []
    ensures a + b == (a + b[..|b| - 1]) + [b[|b| - 1]]
  {
  }

  /** What an added get or cleanup changes: nothing about who decides the key, and
      an eviction only if nothing after it decides the key. */
  lemma {:induction false} AddedOp(a: seq<Op>, op: Op, b: seq<Op>, key: string, expiry: int)
    requires op.Cleanup? || op.Get?
    ensures Deciding(a + [op] + b, key) == Deciding(a + b, key)
    ensures Evicted(a + [op] + b, key, expiry)
       <==> Evicted(a + b, key, expiry) || (Deciding(b, key).None? && Evicts(op, key, expiry))
  {
    if b == [] {
      assert a + [op] + b == a + [op] && a + b == a;
      LastOp(a, op, key, expiry);
    } else {
      var n := |b| - 1;
      AddedOp(a, op, b[..n], key, expiry);
      FrontAndLast(a + [op], b);
      FrontAndLast(a, b);
      LastOp(a + [op] + b[..n], b[n], key, expiry);
      LastOp(a + b[..n], b[n], key, expiry);
    }
  }

  /** A cleanup or a get added anywhere to a history leaves a later get alone if and
      only if it does not evict the very entry that the get would have returned. */
  lemma CleanupIsInvisibleIff(a: seq<Op>, op: Op, b: seq<Op>, key: string, now: int)
    requires op.Cleanup? || op.Get?
    ensures Visible(Run(a + [op] + b), key, now) == Visible(Run(a + b), key, now)
       <==> (key in Run(a + b) && now <= Run(a + b)[key].expiry && Deciding(b, key).None?
             ==> !Evicts(op, key, Run(a + b)[key].expiry))
  {
    HoldsLastSet(a + b, key);
    HoldsLastSet(a + [op] + b, key);
    var slot := SlotOf(Deciding(a + b, key));
    AddedOp(a, op, b, key, if slot.Some? then slot.value.expiry else 0);
  }

  /** Under a clock that does not go back, a cleanup or a get at any point of a
      history changes no later get. */
  lemma CleanupIsInvisible(a: seq<Op>, op: Op, b: seq<Op>, key: string, now: int)
    requires (op.Cleanup? || op.Get?) && Timed(a + [op] + b, now)
    ensures Visible(Run(a + [op] + b), key, now) == Visible(Run(a + b), key, now)
  {
    CleanupIsInvisibleIff(a, op, b, key, now);
    assert (a + [op] + b)[|a|] == op;
  }

  /** If the clock steps back past an expiry, a get evicts what a later get should still see. */
  lemma ClockStepBackLosesEntry(r: Response)
    ensures var ops := [Set("k", r, 10, 0), Get("k", 11)];
      Expected(ops, "k", 5) == Some(r) && Visible(Run(ops), "k", 5) == None
  {
    var ops := [Set("k", r, 10, 0), Get("k", 11)];
    assert ops[..1] == [Set("k", r, 10, 0)];
    assert ops[..1][..0] == [];
    assert Run(ops[..1]) == map["k" := Slot(r, 10)];
    assert Deciding(ops, "k") == Deciding(ops[..1], "k");
  }
}

/** The blocking proxy: the scoped cache entry (`SimpleCache`), the
    `with_cache` scope around it, the lock, the hash helpers and the
    memoizer of `RedisCacheProxy`. */
module SyncProxy {
  import opened Values
  import opened Store
  import opened CacheCommon
  import CacheKey

  // ---------------------------------------------------------------------
  // The scoped cache entry

  /** `SimpleCache.get` for a string entry: a missing or empty text reads
      as `{}`, anything else goes through json.loads, which may raise. */
  function ScalarLoad(s: State, key: string): (r: Result<Value>)
    ensures GetReply(s, key).Ok? && (GetReply(s, key).value.None? || !Present(GetReply(s, key).value.value))
            ==> r == Ok(Dict(map[]))
    ensures GetReply(s, key).Err? ==> r == Err(GetReply(s, key).error)
  {
    match GetReply(s, key)
    case Err(e) => Err(e)
    case Ok(g) => if g.None? || !Present(g.value) then Ok(Dict(map[])) else Loads(g.value)
  }

  /** `SimpleCache.get` */
  function Load(s: State, key: string, isJson: bool): Result<Value> {
    if isJson then HashLoad(s, key) else ScalarLoad(s, key)
  }

  /** `SimpleCache.set`: a dict entry goes through `HashSave`; a string
      entry is one `SET key json.dumps(data) EX ex`. */
  function Save(s: State, key: string, ex: int, isJson: bool, data: Value): (r: Effect)
    ensures |r.issued| <= 1
    ensures r.issued == [] ==> r.state == s && r.failure.Some?
    ensures !isJson && !Jsonable(data) ==> r == Effect(s, [], Some(NotSerializable))
    ensures !isJson && Jsonable(data) ==> r.issued == [SetCmd(key, Encoded(data), Some(ex))]
  {
    if isJson then HashSave(s, key, ex, data)
    else match Dumps(data)
      case Err(e) => Effect(s, [], Some(e))
      case Ok(t) => SetEffect(s, key, t, Some(ex))
  }

  /** What a write hands back to its caller. */
  function Reported(w: Effect): Result<bool> {
    if w.failure.Some? then Err(w.failure.value) else Ok(true)
  }

  /** Saving a truthy, serialisable value over a miss, with a positive
      expiry, succeeds, keeps the store well formed, sets the expiry, and
      the next load gives the value back (a dict with its field names as
      bytes). */
  lemma SaveThenLoad(s: State, key: string, ex: int, isJson: bool, v: Value)
    requires WellFormed(s)
    requires Load(s, key, isJson).Ok? && !Truthy(Load(s, key, isJson).value)
    requires Truthy(v) && Jsonable(v) && ex > 0 && (isJson ==> v.Dict?)
    ensures var w := Save(s, key, ex, isJson, v);
            && w.failure == None
            && WellFormed(w.state)
            && key in w.state.ttl && w.state.ttl[key] == ex
            && Drop(w.state, key) == Drop(s, key)
            && Load(w.state, key, isJson) == Ok(AsRead(v, isJson))
  {
    var w := Save(s, key, ex, isJson, v);
    if isJson {
      HashSaveThenLoad(s, key, ex, v);
    } else {
      SetThenGet(s, key, v, Some(ex));
    }
  }

  /** `SimpleCache`: one cache key, its expiry and encoding, the value the
      caller works on, and whether that value is still to be written. */
  class SimpleCache {
    const key: string
    const expire: int
    const client: Client
    const json: bool
    const except: bool
    var data: Value
    var update: bool

    constructor (key: string, ex: int, client: Client, isJson: bool, isUpdate: bool, isExcept: bool)
      ensures this.key == key && this.expire == ex && this.client == client
      ensures this.json == isJson && this.update == isUpdate && this.except == isExcept
      ensures this.data == Nil
    {
      this.key := key;
      this.expire := ex;
      this.client := client;
      this.json := isJson;
      this.update := isUpdate;
      this.except := isExcept;
      this.data := Nil;
    }

    method Get() returns (r: Result<Value>)
      ensures r == Load(client.state, key, json)
    {
      if json {
        var f := client.HGetAll(key);
        if f.Err? {
          return Err(f.error);
        }
        if f.value == map[] {
          return Ok(Dict(map[]));
        }
        match DecodeFields(f.value)
        case Ok(m) => r := Ok(ByteKeyed(m));
        case Err(e) => r := Err(e);
      } else {
        var g := client.Get(key);
        if g.Err? {
          return Err(g.error);
        }
        if g.value.None? || !Present(g.value.value) {
          return Ok(Dict(map[]));
        }
        r := Loads(g.value.value);
      }
    }

    method Set() returns (r: Result<bool>)
      requires client.Valid()
      modifies client
      ensures client.Valid()
      ensures var w := Save(old(client.state), key, expire, json, data);
              && client.state == w.state
              && client.writes == old(client.writes) + w.issued
              && r == Reported(w)
    {
      if json {
        if !IsDict(data) {
          return Err(NotADict);
        }
        var enc := EncodeFields(data.fields);
        if enc.Err? {
          return Err(enc.error);
        }
        if enc.value == map[] {
          return Err(EmptyMapping);
        }
        var replies := client.Execute(key, [QHMSet(enc.value), QExpire(expire)]);
        r := if replies.Err? then Err(replies.error) else Ok(true);
      } else {
        var t := Dumps(data);
        if t.Err? {
          return Err(t.error);
        }
        r := client.Set(key, t.value, Some(expire));
      }
    }

    /** `__enter__`: loads the entry; a truthy value needs no write. A
        failing load raises out of the `with` statement. */
    method Enter() returns (r: Result<Value>)
      modifies this
      ensures match Load(client.state, key, json)
              case Err(e) => r == Err(e) && data == old(data) && update == old(update)
              case Ok(d) => r == Ok(d) && data == d && update == (old(update) && !Truthy(d))
    {
      r := Get();
      if r.Err? {
        return;
      }
      data := r.value;
      if Truthy(data) {
        update := false;
      }
    }

    /** `__exit__`: writes a truthy value that still needs it; `Ok(b)` says
        whether the exception of the block, if any, is swallowed. */
    method Exit() returns (r: Result<bool>)
      requires client.Valid()
      modifies client
      ensures client.Valid()
      ensures if update && Truthy(data) then
                var w := Save(old(client.state), key, expire, json, data);
                && client.state == w.state
                && client.writes == old(client.writes) + w.issued
                && r == (if w.failure.Some? then Err(w.failure.value) else Ok(!except))
              else client.state == old(client.state) && client.writes == old(client.writes) && r == Ok(!except)
    {
      if update && Truthy(data) {
        var w := Set();
        if w.Err? {
          return Err(w.error);
        }
      }
      r := Ok(!except);
    }
  }

  // ---------------------------------------------------------------------
  // The `with_cache` scope

  /** `with_cache` on this proxy's entry. */
  function WithCacheScope(s: State, key: string, ex: int, isJson: bool, isUpdate: bool, block: BlockEffect): Scope {
    CacheScope(s, Load(s, key, isJson), v => Save(s, key, ex, isJson, v), isUpdate, block)
  }

  /** Cache-aside round trip: after a miss, a truthy serialisable value the
      block assigns is written (even when the block then raises), and a
      second scope on the key loads it as a hit (a dict with its field
      names as bytes). */
  lemma ScopeMissRoundTrip(s: State, key: string, ex: int, isJson: bool, block: BlockEffect, next: BlockEffect)
    requires WellFormed(s) && ex > 0
    requires Load(s, key, isJson).Ok? && !Truthy(Load(s, key, isJson).value)
    requires block.assign.Some?
    requires var v := block.assign.value; Truthy(v) && Jsonable(v) && (isJson ==> v.Dict?)
    ensures var sc := WithCacheScope(s, key, ex, isJson, true, block);
            var again := WithCacheScope(sc.state, key, ex, isJson, true, next);
            && sc.dirty && |sc.issued| == 1
            && sc.outcome == (if block.raises then Err(BlockRaised) else Ok(block.assign.value))
            && WellFormed(sc.state)
            && again.loaded == AsRead(block.assign.value, isJson) && !again.dirty
            && again.state == sc.state && again.issued == []
  {
    var v := block.assign.value;
    SaveThenLoad(s, key, ex, isJson, v);
    var sc := WithCacheScope(s, key, ex, isJson, true, block);
    ScopeHitWritesNothing(sc.state, Load(sc.state, key, isJson), v => Save(sc.state, key, ex, isJson, v), true, next);
  }

  // ---------------------------------------------------------------------
  // The string helpers the memoizer uses

  /** `get_data`: GET, then json.loads of a truthy text; a text that is
      not JSON comes back as the raw bytes, a falsy reply as it is. */
  function DataRead(s: State, key: string): (r: Result<Value>)
    ensures GetReply(s, key).Err? <==> r.Err?
    ensures GetReply(s, key) == Ok(None) ==> r == Ok(Nil)
    ensures key in s.db && s.db[key].Scalar? && s.db[key].text.Encoded? ==> r == Ok(s.db[key].text.doc)
  {
    match GetReply(s, key)
    case Err(e) => Err(e)
    case Ok(g) =>
      if g.None? then Ok(Nil)
      else if !Present(g.value) then Ok(Bytes(g.value.chars))
      else match Loads(g.value)
        case Ok(v) => Ok(v)
        case Err(_) => Ok(Bytes(g.value.chars))
  }

  /** `set_data`: the JSON text when json.dumps accepts the value,
      otherwise the value itself, which the client library can send only
      when it is bytes. */
  function DataWrite(s: State, key: string, v: Value, ex: Option<int>): (r: Effect)
    ensures forall c | c in r.issued :: c.SetCmd? && c.key == key && c.ex == ex
    ensures Jsonable(v) ==> r == SetEffect(s, key, Encoded(v), ex)
    ensures v.Bytes? ==> r == SetEffect(s, key, Raw(v.bytes), ex)
    ensures !Jsonable(v) && !v.Bytes? ==> r == Effect(s, [], Some(Unencodable))
  {
    match Dumps(v)
    case Ok(t) => SetEffect(s, key, t, ex)
    case Err(_) => if v.Bytes? then SetEffect(s, key, Raw(v.bytes), ex) else Effect(s, [], Some(Unencodable))
  }

  /** `set_json`: asserts a dict, encodes every field, then HMSET and, for
      a truthy `ex`, EXPIRE in one pipeline. The client library refuses an
      empty mapping before anything is sent. */
  function JsonWrite(s: State, key: string, v: Value, ex: Option<int>): (r: Effect)
    ensures |r.issued| <= 1
    ensures r.issued == [] ==> r.state == s && r.failure.Some?
    ensures !IsDict(v) ==> r == Effect(s, [], Some(NotADict))
    ensures IsDict(v) && v.fields == map[] ==> r == Effect(s, [], Some(EmptyMapping))
    ensures forall c | c in r.issued :: c.ExecCmd? && c.key == key
  {
    if !IsDict(v) then Effect(s, [], Some(NotADict))
    else match EncodeFields(v.fields)
      case Err(e) => Effect(s, [], Some(e))
      case Ok(enc) =>
        if enc == map[] then Effect(s, [], Some(EmptyMapping))
        else PipelineWrite(s, key, Expiring(QHMSet(enc), ex))
  }

  /** Writing a truthy, serialisable value (a dict for the hash encoding)
      with a positive expiry to a key whose read is falsy succeeds, and the
      read gives the value back (a dict with its field names as bytes). */
  lemma WriteThenRead(s: State, key: string, v: Value, ex: int, isJson: bool)
    requires WellFormed(s) && ex > 0
    requires MemoRead(s, key, isJson).Ok? && !Truthy(MemoRead(s, key, isJson).value)
    requires Truthy(v) && Jsonable(v) && (isJson ==> v.Dict?)
    ensures var w := MemoWrite(s, key, v, Some(ex), isJson);
            && w.failure == None && WellFormed(w.state)
            && MemoRead(w.state, key, isJson) == Ok(AsRead(v, isJson))
  {
    if isJson {
      assert Expiring(QHMSet(EncodeFields(v.fields).value), Some(ex)) == [QHMSet(EncodeFields(v.fields).value), QExpire(ex)];
      assert JsonWrite(s, key, v, Some(ex)) == HashSave(s, key, ex, v);
      HashSaveThenLoad(s, key, ex, v);
    }
  }

  /** A value the refresh can write back: under the hash encoding a dict
      whose values json.dumps accepts, otherwise a value it accepts. */
  predicate Rewritable(v: Value, isJson: bool) {
    if isJson then HashWritable(v) else Jsonable(v)
  }

  /** Rewriting the value a read gave back, as the refresh does, succeeds
      and leaves the read unchanged. */
  lemma RewriteKeepsRead(s: State, key: string, v: Value, ex: int, isJson: bool)
    requires WellFormed(s) && ex > 0
    requires MemoRead(s, key, isJson) == Ok(v) && Truthy(v) && Rewritable(v, isJson)
    ensures var w := MemoWrite(s, key, v, Some(ex), isJson);
            && w.failure == None && WellFormed(w.state)
            && MemoRead(w.state, key, isJson) == Ok(v)
  {
    if isJson {
      assert Expiring(QHMSet(EncodeFields(v.fields).value), Some(ex)) == [QHMSet(EncodeFields(v.fields).value), QExpire(ex)];
      assert JsonWrite(s, key, v, Some(ex)) == HashSave(s, key, ex, v);
      HashRewriteKeepsLoad(s, key, ex, v);
    }
  }

  // ---------------------------------------------------------------------
  // The memoizer, as a function of the store

  /** `cache_per + key + ":" + _make_cache_key(*args, **kwargs)` */
  function MemoKey(digest: string -> string, cachePer: string, key: string,
                   args: seq<Value>, kwargs: seq<(string, Value)>): string {
    cachePer + key + ":" + CacheKey.MakeCacheKey(digest, args, kwargs)
  }

  /** Keyword arguments given in another order, or under other names, hit
      the same cache key. */
  lemma MemoKeyOrderFree(digest: string -> string, cachePer: string, key: string, args: seq<Value>,
                         kwargs1: seq<(string, Value)>, kwargs2: seq<(string, Value)>)
    requires multiset(CacheKey.KwValues(kwargs1)) == multiset(CacheKey.KwValues(kwargs2))
    ensures MemoKey(digest, cachePer, key, args, kwargs1) == MemoKey(digest, cachePer, key, args, kwargs2)
  {
    assert multiset(args + CacheKey.KwValues(kwargs1)) == multiset(args + CacheKey.KwValues(kwargs2));
    CacheKey.CanonPermutation(args, kwargs1, args, kwargs2);
  }

  /** `get_json` or `get_data`, as `is_json` selects. */
  function MemoRead(s: State, key: string, isJson: bool): Result<Value> {
    if isJson then HashLoad(s, key) else DataRead(s, key)
  }

  /** `set_json` or `set_data`, as `is_json` selects. */
  function MemoWrite(s: State, key: string, v: Value, ex: Option<int>, isJson: bool): Effect {
    if isJson then JsonWrite(s, key, v, ex) else DataWrite(s, key, v, ex)
  }

  /** One call of a memoized function: the new state, the commands issued,
      what the call returns or raises, and how often the function ran. */
  datatype Memo = Memo(state: State, issued: seq<Cmd>, result: Result<Value>, calls: nat)

  /** The `except` branch: raise `ValueError(e)`, or call the function and
      return its result uncached. */
  function Recover(s: State, issued: seq<Cmd>, e: Error, exception: bool, fx: Result<Value>): (m: Memo)
    ensures m.state == s && m.issued == issued
    ensures exception ==> m.result == Err(Wrapped(e)) && m.calls == 0
    ensures !exception ==> m.result == fx && m.calls == 1
  {
    if exception then Memo(s, issued, Err(Wrapped(e)), 0) else Memo(s, issued, fx, 1)
  }

  /** The rest of a call once the read gave `d` and the refresh, if any, had
      effect `w`: return a truthy `d`; otherwise run the function (`fx` is
      what it returns or raises) and store its result. */
  function AfterRead(ck: string, ex: Option<int>, isJson: bool, exception: bool, d: Value, w: Effect, fx: Result<Value>): Memo {
    if w.failure.Some? then Recover(w.state, w.issued, w.failure.value, exception, fx)
    else if Truthy(d) then Memo(w.state, w.issued, Ok(d), 0)
    else match fx
      case Err(e) => Memo(w.state, w.issued, Err(e), 1)
      case Ok(v) =>
        var w2 := MemoWrite(w.state, ck, v, ex, isJson);
        Memo(w2.state, w.issued + w2.issued, if w2.failure.Some? then Err(w2.failure.value) else Ok(v), 1)
  }

  /** `memoize` as written: the refresh (`is_update`) writes back whatever
      the read gave, a miss included. */
  function MemoizedAsWritten(s: State, ck: string, ex: Option<int>, isJson: bool, isUpdate: bool,
                             exception: bool, fx: Result<Value>): Memo {
    match MemoRead(s, ck, isJson)
    case Err(e) => Recover(s, [], e, exception, fx)
    case Ok(d) =>
      AfterRead(ck, ex, isJson, exception, d, if isUpdate then MemoWrite(s, ck, d, ex, isJson) else Effect(s, [], None), fx)
  }

  /** `memoize` with the refresh applied to hits only, which the rest of
      the model uses. */
  function Memoized(s: State, ck: string, ex: Option<int>, isJson: bool, isUpdate: bool,
                    exception: bool, fx: Result<Value>): Memo {
    match MemoRead(s, ck, isJson)
    case Err(e) => Recover(s, [], e, exception, fx)
    case Ok(d) =>
      AfterRead(ck, ex, isJson, exception, d,
                if isUpdate && Truthy(d) then MemoWrite(s, ck, d, ex, isJson) else Effect(s, [], None), fx)
  }

  /** As written, a hash-encoded memoizer with `is_update` never caches: on
      a miss the refresh sends the empty dict, the client library refuses
      it, and the call falls back to the function (or raises) without
      storing anything, so every later call misses again. */
  lemma AsWrittenJsonRefreshNeverCaches(s: State, ck: string, ex: Option<int>, exception: bool, fx: Result<Value>)
    requires WellFormed(s) && ck !in s.db
    ensures var m := MemoizedAsWritten(s, ck, ex, true, true, exception, fx);
            && m.state == s && m.issued == []
            && m.result == (if exception then Err(Wrapped(EmptyMapping)) else fx)
  {
    assert HashLoad(s, ck) == Ok(Dict(map[]));
  }

  /** A hit returns the stored value without running the function; with
      the refresh on, the value is written again and the read stays. */
  lemma MemoHit(s: State, ck: string, ex: int, isJson: bool, isUpdate: bool, exception: bool, fx: Result<Value>)
    requires WellFormed(s) && ex > 0
    requires MemoRead(s, ck, isJson).Ok? && Truthy(MemoRead(s, ck, isJson).value)
    requires isUpdate ==> Rewritable(MemoRead(s, ck, isJson).value, isJson)
    ensures var m := Memoized(s, ck, Some(ex), isJson, isUpdate, exception, fx);
            && m.result == MemoRead(s, ck, isJson) && m.calls == 0
            && MemoRead(m.state, ck, isJson) == MemoRead(s, ck, isJson)
            && (!isUpdate ==> m.state == s && m.issued == [])
  {
    if isUpdate {
      RewriteKeepsRead(s, ck, MemoRead(s, ck, isJson).value, ex, isJson);
    }
  }

  /** A miss runs the function once and stores a truthy, serialisable
      result, which the next read gives back (a dict with its field names
      as bytes). */
  lemma MemoMiss(s: State, ck: string, ex: int, isJson: bool, isUpdate: bool, exception: bool, v: Value)
    requires WellFormed(s) && ex > 0
    requires MemoRead(s, ck, isJson).Ok? && !Truthy(MemoRead(s, ck, isJson).value)
    requires Truthy(v) && Jsonable(v) && (isJson ==> v.Dict?)
    ensures var m := Memoized(s, ck, Some(ex), isJson, isUpdate, exception, Ok(v));
            && m.result == Ok(v) && m.calls == 1
            && (forall c | c in m.issued :: c.key == ck)
            && WellFormed(m.state)
            && MemoRead(m.state, ck, isJson) == Ok(AsRead(v, isJson))
  {
    WriteThenRead(s, ck, v, ex, isJson);
  }

  /** Two calls with the same arguments run the function once; the first
      returns the function's result, the second what the store gives back
      for it: the same value, except that a dict's field names come back
      as bytes. */
  lemma MemoTwice(s: State, ck: string, ex: int, isJson: bool, isUpdate: bool, exception: bool, v: Value)
    requires WellFormed(s) && ex > 0
    requires MemoRead(s, ck, isJson).Ok? && !Truthy(MemoRead(s, ck, isJson).value)
    requires Truthy(v) && Jsonable(v) && (isJson ==> v.Dict?)
    ensures var first := Memoized(s, ck, Some(ex), isJson, isUpdate, exception, Ok(v));
            var second := Memoized(first.state, ck, Some(ex), isJson, isUpdate, exception, Ok(v));
            && first.calls + second.calls == 1
            && first.result == Ok(v)
            && second.result == Ok(AsRead(v, isJson))
  {
    MemoMiss(s, ck, ex, isJson, isUpdate, exception, v);
    var first := Memoized(s, ck, Some(ex), isJson, isUpdate, exception, Ok(v));
    assert Rewritable(AsRead(v, isJson), isJson);
    MemoHit(first.state, ck, ex, isJson, isUpdate, exception, Ok(v));
  }

  /** A read that raises is either re-raised wrapped, or answered by the
      function, uncached; nothing is written either way. */
  lemma MemoReadFails(s: State, ck: string, ex: Option<int>, isJson: bool, isUpdate: bool, exception: bool, fx: Result<Value>)
    requires MemoRead(s, ck, isJson).Err?
    ensures var m := Memoized(s, ck, ex, isJson, isUpdate, exception, fx);
            && m.state == s && m.issued == []
            && m.result == (if exception then Err(Wrapped(MemoRead(s, ck, isJson).error)) else fx)
            && m.calls == (if exception then 0 else 1)
  {
  }

  /** After `delete_memoize` removed the key, the next call misses and runs
      the function. */
  lemma DeletedIsMiss(s: State, ck: string, ex: Option<int>, isJson: bool, isUpdate: bool, exception: bool, fx: Result<Value>)
    ensures MemoRead(Drop(s, ck), ck, isJson).Ok? && !Truthy(MemoRead(Drop(s, ck), ck, isJson).value)
    ensures Memoized(Drop(s, ck), ck, ex, isJson, isUpdate, exception, fx).calls == 1
  {
  }

  // ---------------------------------------------------------------------
  // The proxy

  /** `RedisCacheProxy`: a connection, and the digest `_make_cache_key`
      applies (md5, as a hex string). */
  class RedisCacheProxy {
    const client: Client
    const digest: string -> string

    constructor (client: Client, digest: string -> string)
      ensures this.client == client && this.digest == digest
    {
      this.client := client;
      this.digest := digest;
    }

    /** `with_cache`, with the caller's block given by what it does. */
    method WithCache(key: string, ex: int, isJson: bool, isUpdate: bool, isExcept: bool, block: BlockEffect)
      returns (r: Result<Value>)
      requires client.Valid()
      modifies client
      ensures client.Valid()
      ensures var sc := WithCacheScope(old(client.state), key, ex, isJson, isUpdate, block);
              && client.state == sc.state
              && client.writes == old(client.writes) + sc.issued
              && r == sc.outcome
    {
      var cache := new SimpleCache(key, ex, client, isJson, isUpdate, isExcept);
      var loaded := cache.Get();
      if loaded.Err? {
        return Err(loaded.error);
      }
      cache.data := loaded.value;
      if Truthy(cache.data) {
        cache.update := false;
      }
      if block.assign.Some? {
        cache.data := block.assign.value;
      }
      if cache.update && Truthy(cache.data) {
        var w := cache.Set();
        if w.Err? {
          return Err(w.error);
        }
      }
      r := if block.raises then Err(BlockRaised) else Ok(cache.data);
    }

    /** `release_lock` */
    method ReleaseLock(key: string)
      requires client.Valid()
      modifies client
      ensures client.Valid()
      ensures client.state == DeleteResult(old(client.state), LockKey(key)).0
      ensures client.writes == old(client.writes) + [DeleteCmd(LockKey(key))]
    {
      var _ := client.Delete(LockKey(key));
    }

    /** `with_lock`: acquire, run the block (which may raise), and release
        in the `finally`. `None` means the acquire loop is still polling:
        with no other client, a lock key that is already set is never
        released, so the loop never ends. */
    method WithLock(key: string, expire: int, fuel: nat, raises: bool) returns (r: Option<Result<bool>>)
      requires client.Valid()
      modifies client
      ensures client.Valid()
      ensures var lk := LockKey(key);
              r.Some? ==> && lk !in client.state.db
                          && Drop(client.state, lk) == Drop(old(client.state), lk)
                          && |client.writes| > |old(client.writes)|
                          && client.writes[|client.writes| - 1] == DeleteCmd(lk)
      ensures r.None? ==> client.state == old(client.state)
      ensures var s := old(client.state);
              fuel > 0 && LockKey(key) !in s.db ==> r == Some(if raises then Err(BlockRaised) else Ok(true))
      ensures fuel > 0 && LockHeld(old(client.state), key).Err?
              ==> r == Some(Err(LockHeld(old(client.state), key).error))
      ensures fuel > 0 && LockHeld(old(client.state), key).Err?
              ==> client.writes == old(client.writes) + [DeleteCmd(LockKey(key))]
      ensures var s := old(client.state);
              fuel == 0 || (LockKey(key) in s.db && LockHeld(s, key).Ok?) ==> r == None
      ensures var lk := LockKey(key);
              fuel > 0 && lk !in old(client.state).db
              ==> client.writes == old(client.writes) + [SetNxCmd(lk, LockMark), ExpireCmd(lk, expire), DeleteCmd(lk)]
    {
      ghost var s := client.state;
      var t := AcquireLock(client, key, expire, fuel);
      if t == Waiting {
        return None;
      }
      if LockKey(key) !in s.db {
        WonLock(s, key, expire);
      }
      ReleaseLock(key);
      if t.Failed? {
        return Some(Err(t.error));
      }
      r := Some(if raises then Err(BlockRaised) else Ok(true));
    }

    /** `hset`: HSET and, for a truthy `ex`, EXPIRE, in one pipeline. */
    method HSet(key: string, field: string, value: Text, ex: Option<int>) returns (r: Result<seq<Reply>>)
      requires client.Valid()
      modifies client
      ensures client.Valid()
      ensures var w := PipelineWrite(old(client.state), key, Expiring(QHSet(field, value), ex));
              && client.state == w.state && client.writes == old(client.writes) + w.issued
              && (r.Err? <==> w.failure.Some?) && (r.Err? ==> r.error == w.failure.value)
    {
      r := client.Execute(key, Expiring(QHSet(field, value), ex));
    }

    /** `hmset`: HMSET and, for a truthy `ex`, EXPIRE, in one pipeline; the
        client library refuses an empty mapping before sending anything. */
    method HMSet(key: string, values: map<string, Text>, ex: Option<int>) returns (r: Result<seq<Reply>>)
      requires client.Valid()
      modifies client
      ensures client.Valid()
      ensures values == map[] ==> r == Err(EmptyMapping) && client.state == old(client.state) && client.writes == old(client.writes)
      ensures values != map[] ==>
                var w := PipelineWrite(old(client.state), key, Expiring(QHMSet(values), ex));
                && client.state == w.state && client.writes == old(client.writes) + w.issued
                && (r.Err? <==> w.failure.Some?) && (r.Err? ==> r.error == w.failure.value)
    {
      if values == map[] {
        return Err(EmptyMapping);
      }
      r := client.Execute(key, Expiring(QHMSet(values), ex));
    }

    /** `get_json` */
    method GetJson(key: string) returns (r: Result<Value>)
      ensures r == HashLoad(client.state, key)
    {
      var f := client.HGetAll(key);
      if f.Err? {
        return Err(f.error);
      }
      if f.value == map[] {
        return Ok(Dict(map[]));
      }
      match DecodeFields(f.value)
      case Ok(m) => r := Ok(ByteKeyed(m));
      case Err(e) => r := Err(e);
    }

    /** `set_json` */
    method SetJson(key: string, value: Value, ex: Option<int>) returns (r: Result<seq<Reply>>)
      requires client.Valid()
      modifies client
      ensures client.Valid()
      ensures var w := JsonWrite(old(client.state), key, value, ex);
              && client.state == w.state && client.writes == old(client.writes) + w.issued
              && (r.Err? <==> w.failure.Some?) && (r.Err? ==> r.error == w.failure.value)
    {
      if !IsDict(value) {
        return Err(NotADict);
      }
      var enc := EncodeFields(value.fields);
      if enc.Err? {
        return Err(enc.error);
      }
      r := HMSet(key, enc.value, ex);
    }

    /** `get_data` */
    method GetData(key: string) returns (r: Result<Value>)
      ensures r == DataRead(client.state, key)
    {
      var g := client.Get(key);
      if g.Err? {
        return Err(g.error);
      }
      if g.value.None? {
        return Ok(Nil);
      }
      var t := g.value.value;
      if !Present(t) {
        return Ok(Bytes(t.chars));
      }
      match Loads(t)
      case Ok(v) => r := Ok(v);
      case Err(_) => r := Ok(Bytes(t.chars));
    }

    /** `set_data` */
    method SetData(key: string, value: Value, ex: Option<int>) returns (r: Result<bool>)
      requires client.Valid()
      modifies client
      ensures client.Valid()
      ensures var w := DataWrite(old(client.state), key, value, ex);
              && client.state == w.state && client.writes == old(client.writes) + w.issued
              && r == Reported(w)
    {
      var t := Dumps(value);
      if t.Ok? {
        r := client.Set(key, t.value, ex);
      } else if value.Bytes? {
        r := client.Set(key, Raw(value.bytes), ex);
      } else {
        r := Err(Unencodable);
      }
    }

    /** The `set_func` of `memoize`. */
    method MemoSet(key: string, value: Value, ex: Option<int>, isJson: bool) returns (r: Result<bool>)
      requires client.Valid()
      modifies client
      ensures client.Valid()
      ensures var w := MemoWrite(old(client.state), key, value, ex, isJson);
              && client.state == w.state && client.writes == old(client.writes) + w.issued
              && r == Reported(w)
    {
      if isJson {
        var replies := SetJson(key, value, ex);
        r := if replies.Err? then Err(replies.error) else Ok(true);
      } else {
        r := SetData(key, value, ex);
      }
    }

    /** What a call does once the read gave `d`: the refresh of a hit, then
        the hit or the miss. `fx` stands for `f(...)`, which runs only on a
        miss or in the `except` branch. */
    method MemoAfterRead(ck: string, ex: Option<int>, isJson: bool, isUpdate: bool, exception: bool,
                         d: Value, fx: Result<Value>)
      returns (r: Result<Value>, calls: nat)
      requires client.Valid()
      modifies client
      ensures client.Valid()
      ensures var s := old(client.state);
              var m := AfterRead(ck, ex, isJson, exception, d,
                                 if isUpdate && Truthy(d) then MemoWrite(s, ck, d, ex, isJson) else Effect(s, [], None), fx);
              && client.state == m.state && client.writes == old(client.writes) + m.issued
              && r == m.result && calls == m.calls
    {
      if isUpdate && Truthy(d) {
        var w := MemoSet(ck, d, ex, isJson);
        if w.Err? {
          if exception {
            return Err(Wrapped(w.error)), 0;
          }
          return fx, 1;
        }
      }
      if Truthy(d) {
        return Ok(d), 0;
      }
      if fx.Err? {
        return fx, 1;
      }
      var w2 := MemoSet(ck, fx.value, ex, isJson);
      r := if w2.Err? then Err(w2.error) else fx;
      calls := 1;
    }

    /** One call of a function `f` decorated with `memoize`; `calls` counts
        how often `f` ran. */
    method Memoize(key: string, ex: Option<int>, cachePer: string, isJson: bool, isUpdate: bool, exception: bool,
                   f: (seq<Value>, seq<(string, Value)>) -> Result<Value>,
                   args: seq<Value>, kwargs: seq<(string, Value)>)
      returns (r: Result<Value>, calls: nat)
      requires client.Valid()
      modifies client
      ensures client.Valid()
      ensures var m := Memoized(old(client.state), MemoKey(digest, cachePer, key, args, kwargs),
                                ex, isJson, isUpdate, exception, f(args, kwargs));
              && client.state == m.state && client.writes == old(client.writes) + m.issued
              && r == m.result && calls == m.calls
    {
      var ck := MemoKey(digest, cachePer, key, args, kwargs);
      var read: Result<Value>;
      if isJson {
        read := GetJson(ck);
      } else {
        read := GetData(ck);
      }
      if read.Err? {
        if exception {
          return Err(Wrapped(read.error)), 0;
        }
        return f(args, kwargs), 1;
      }
      r, calls := MemoAfterRead(ck, ex, isJson, isUpdate, exception, read.value, f(args, kwargs));
    }

    /** `delete_memoize`: EXPIRE -1 when `is_safe`, DEL otherwise; either
        way the entry is gone. */
    method DeleteMemoize(key: string, cachePer: string, isSafe: bool, args: seq<Value>, kwargs: seq<(string, Value)>)
      requires client.Valid()
      modifies client
      ensures client.Valid()
      ensures var ck := MemoKey(digest, cachePer, key, args, kwargs);
              && client.state == Drop(old(client.state), ck)
              && client.writes == old(client.writes) + [if isSafe then ExpireCmd(ck, -1) else DeleteCmd(ck)]
    {
      var ck := MemoKey(digest, cachePer, key, args, kwargs);
      ghost var s := client.state;
      if ck !in s.db {
        assert ck !in s.ttl;
        assert Drop(s, ck) == s;
      }
      if isSafe {
        var _ := client.Expire(ck, -1);
      } else {
        var _ := client.Delete(ck);
      }
    }
  }
}

# wan-pyredis cache proxies in Dafny

This project models the two cache proxies of wan-pyredis: the blocking
`RedisCacheProxy` with `SimpleCache` (`pyredis/proxy/proxy.py`) and the
asyncio `RedisCacheProxy` with `AsyncSimpleCache`
(`pyredis/proxy/async_proxy.py`). Both sit on top of a Redis connection
and provide four things:

- a cache-aside scope (`with_cache`) that loads an entry, lets the
  caller's block fill it, and writes it back on a miss;
- a polling lock on the key `lock:<name>`;
- a memoizing decorator whose cache key is an md5 digest of the call's
  scalar arguments (blocking proxy only);
- small pipelines and decoders over hashes and sets.

Modules:

- `Values` (`values.dfy`): Python values, truthiness, the exceptions, and
  JSON. A stored text is either the encoding of a value (`Encoded`) or
  text that is not JSON (`Raw`). `json.loads(json.dumps(v)) == v` holds
  by construction, because a JSON text is modelled as the encoding of
  its value. A dict read back from a hash is `ByteKeyed`: HGETALL hands
  back the field names as bytes, so under Python's `==` it differs from
  the dict that was written. The empty dict a miss gives is the ordinary
  `{}`.
- `Store` (`store.dfy`): the Redis commands the proxies use, as pure
  functions on a `State(db, ttl)`. The class `Client` holds the state and
  a log (`writes`) of every state-changing command. Pipelines run their
  queued commands in order; a failing command leaves the others in effect.
- `CacheKey` (`cache_key.dfy`): the canonical string of `_make_cache_key`,
  including an insertion sort proved sorted and a permutation, and
  Python's code-point order on strings.
- `CacheCommon` (`cache_common.dfy`): what both proxies share.
  - the hash encoding of a dict and the hash read;
  - the lock key and the acquire loop;
  - the effect of a write, and the `with_cache` scope over any load and
    save.
- `SyncProxy` (`sync_proxy.dfy`): `proxy.py`.
- `AsyncProxy` (`async_proxy.dfy`): `async_proxy.py`.

Each operation that changes the store is a method. Its `ensures` ties the
new state and the commands it issued to a specification function, such as
`Save`, `CacheScope` or `Memoized`. Lemmas about those functions state
what the proxies promise: round trips, no write on a hit, exactly one
write on a miss, the lock key gone after release, and memoize hit/miss
behaviour.

Notes on what the code does:

- `with_cache` (proxy.py:47-55) never swallows an exception. Its
  `is_except` argument reaches `SimpleCache`, but it has no effect there:
  `with_cache` calls `get` and `set` itself and never calls
  `SimpleCache.__exit__`, the only reader of the flag.
- `release_lock` in the blocking proxy (proxy.py:114-119) deletes the
  lock key with DEL. Only the asyncio proxy's release uses `EXPIRE -1`
  (async_proxy.py:130-135).
- The memoizer's refresh (proxy.py:304-305) runs on a miss too. The
  as-written model keeps this, and it is recorded under "## Findings".

## Model

| member | source | states |
|---|---|---|
| Values.Dumps | pyredis/proxy/proxy.py:377 | json.dumps refuses exactly the values that hold bytes, with a serialisation error. Its text is truthy, and json.loads gives the value back. |
| CacheCommon.EncodeFields | pyredis/proxy/proxy.py:377 | `{k: json.dumps(v)}` succeeds iff every value is serialisable. It keeps the keys, and each field is the dump of its value. |
| CacheCommon.DecodeFields | pyredis/proxy/proxy.py:366 | `{k: json.loads(v)}` succeeds iff every text decodes. It keeps the keys, and each value is the decoding of its field. |
| CacheCommon.FieldsRoundTrip | pyredis/proxy/proxy.py:362-383 | Decoding the encoded fields of a dict gives the dict back. |
| CacheCommon.HashLoad | pyredis/proxy/proxy.py:239-246 | The hash read always gives a dict: `{}` for an empty reply, otherwise the fields keyed by bytes. On a well-formed store that dict is truthy iff the key exists. |
| CacheCommon.HashSave | pyredis/proxy/proxy.py:375-381 | A dict entry's write issues at most one pipeline. It raises without sending anything for a non-dict (the `assert isinstance`) or an empty dict. |
| CacheCommon.HashSaveThenLoad | pyredis/proxy/proxy.py:362-381 | Writing a non-empty dict of serialisable values to an absent key with a positive expiry succeeds, sets the expiry and touches no other key. It reads back as the same fields and values, with the field names as bytes. |
| CacheCommon.LoadedFieldsAreEncoded | pyredis/proxy/proxy.py:362-381 | A truthy hash read of serialisable values comes from a hash whose fields are exactly the JSON encoding of those values. |
| CacheCommon.HashWriteMerges | pyredis/proxy/proxy.py:197-212 | HSET/HMSET plus the optional EXPIRE on an absent key or a hash succeeds and merges the new fields over the old. EXPIRE is queued only for a truthy `ex`; zero or absent keeps the old expiry. No other key changes. |
| CacheCommon.HashRewriteKeepsLoad | pyredis/proxy/proxy.py:304-305 | Writing back what a truthy hash read gave (bytes field names included) succeeds, keeps the store well formed, and leaves the read unchanged. |
| CacheCommon.SetThenGet | pyredis/proxy/proxy.py:383 | SET of a serialisable value with no expiry or a positive one succeeds, sets or clears the expiry, touches no other key, and GET then gives back the JSON text. |
| CacheCommon.ScopeLoadFails | pyredis/proxy/proxy.py:47-55 | When the load raises, the scope raises it and writes nothing, since `data` was never set. |
| CacheCommon.ScopeHitWritesNothing | pyredis/proxy/proxy.py:49-55 | On a hit `update` is cleared and nothing is written, whatever the block assigns. The scope ends with the block's exception or the final data. |
| CacheCommon.ScopeMissWritesOnce | pyredis/proxy/proxy.py:49-55 | On a miss with `is_update`, the entry is written once with the final data exactly when that data is truthy, even if the block raised. |
| CacheCommon.ScopeNoUpdateWritesNothing | pyredis/proxy/proxy.py:47-55 | With `is_update` off the scope never writes. |
| CacheCommon.LockHeld | pyredis/proxy/proxy.py:90-98 | The lock reads as held only when the lock key exists. The read raises iff the lock key holds something other than a string. |
| CacheCommon.CheckLock | pyredis/proxy/proxy.py:90-98 | `check_lock` answers whether `lock:<key>` holds a truthy string. The asyncio `check_lock` (async_proxy.py:104-113) is the same read. |
| CacheCommon.TryAcquire | pyredis/proxy/proxy.py:105-112 | One pass of the loop, case by case. A held lock: state and log unchanged. A failed read: raises. A lost SETNX: only SETNX is logged. A free, absent key: SETNX then EXPIRE, and the lock is won. |
| CacheCommon.AcquireLock | pyredis/proxy/proxy.py:100-112 | Up to `fuel` passes: an absent lock key is won on the first pass (SETNX, EXPIRE). A held lock polls with no command. A read error raises at once. A racing empty key retries SETNX on every pass. The asyncio loop (async_proxy.py:115-128) follows the same protocol. |
| CacheCommon.WonLock | pyredis/proxy/proxy.py:110-112 | A won SETNX plus EXPIRE leaves `lock:<key>` set with the lock's expiry, or already gone for a non-positive expiry. Other keys are untouched. |
| CacheCommon.GrantedExcludes | pyredis/proxy/proxy.py:105-108 | While a granted lock lives it reads as held, so any other acquirer keeps polling. |
| CacheCommon.SecondSetNxFails | pyredis/proxy/proxy.py:110 | A second SETNX on a held lock key fails and changes nothing. |
| CacheCommon.ReleasedIsFree | pyredis/proxy/proxy.py:114-119 | After DEL, or after EXPIRE -1, of the lock key the lock reads as free, and releasing again changes nothing. |
| CacheKey.StripDash | pyredis/proxy/proxy.py:326 | `replace("-", "")` leaves no dash and never lengthens the string. |
| CacheKey.StripDashConcat | pyredis/proxy/proxy.py:326 | `replace("-", "")` works character by character: stripping a concatenation is the concatenation of the stripped parts. |
| CacheKey.StripDashNoDash | pyredis/proxy/proxy.py:326 | A string without a dash comes back unchanged. |
| CacheKey.Sort | pyredis/proxy/proxy.py:326 | `sorted` gives a sorted permutation of its input. |
| CacheKey.SortedUnique | pyredis/proxy/proxy.py:326 | Two sorted lists with the same elements are equal, so the sorted list depends only on the multiset of elements. |
| CacheKey.RenderInt | pyredis/proxy/proxy.py:326 | `str(n).replace("-", "")` is the decimal digits of the absolute value of `n`. |
| CacheKey.CanonPermutation | pyredis/proxy/proxy.py:325-326 | The hashed string depends only on the multiset of positional and keyword values. Order, and the positional/keyword split, do not matter. |
| CacheKey.CanonIgnoresNames | pyredis/proxy/proxy.py:325 | Renaming a keyword argument, or passing it positionally, gives the same string. |
| CacheKey.CanonIgnoresIneligible | pyredis/proxy/proxy.py:325 | A value that is not a truthy `str`/`int` does not change the string. This covers None, bools, 0, "", lists and dicts. |
| CacheKey.CanonSignInsensitive | pyredis/proxy/proxy.py:326 | `-n` and `n` give the same string. |
| SyncProxy.ScalarLoad | pyredis/proxy/proxy.py:368-372 | A missing or empty text loads as `{}`. A wrong-type key raises. |
| SyncProxy.Save | pyredis/proxy/proxy.py:374-383 | `set` issues at most one command. A string entry is `SET key json(data) EX ex`, and unserialisable data raises before anything is sent. |
| SyncProxy.SaveThenLoad | pyredis/proxy/proxy.py:362-383 | After a miss, saving a truthy serialisable value with positive expiry succeeds, sets the expiry, touches no other key and keeps the store well formed. It loads back as the value; a dict comes back with its field names as bytes. |
| SyncProxy.SimpleCache.constructor | pyredis/proxy/proxy.py:335-348 | The entry starts with no data and the given key, expiry, encoding and flags. |
| SyncProxy.SimpleCache.Get | pyredis/proxy/proxy.py:362-372 | `get` is the entry's load. |
| SyncProxy.SimpleCache.Set | pyredis/proxy/proxy.py:374-383 | `set` has exactly the effect of `Save` on the store and on the log. |
| SyncProxy.SimpleCache.Enter | pyredis/proxy/proxy.py:350-354 | `__enter__` stores the loaded value and clears `update` on a truthy load. |
| SyncProxy.SimpleCache.Exit | pyredis/proxy/proxy.py:356-360 | `__exit__` writes exactly when `update` and `data` are truthy. It swallows the block's exception iff `is_except` is off, and a failing write raises. |
| SyncProxy.ScopeMissRoundTrip | pyredis/proxy/proxy.py:47-55 | A miss whose block assigns a truthy serialisable value writes it once, even if the block raises. A second scope on the key loads it as a hit and writes nothing; a dict loads with its field names as bytes. |
| SyncProxy.RedisCacheProxy.WithCache | pyredis/proxy/proxy.py:47-55 | `with_cache` has exactly the state, log and outcome of the scope function. |
| SyncProxy.RedisCacheProxy.ReleaseLock | pyredis/proxy/proxy.py:114-119 | `release_lock` is DEL of `lock:<key>`. |
| SyncProxy.RedisCacheProxy.WithLock | pyredis/proxy/proxy.py:84-88 | On every exit path that returns, including a failed acquire and a raising block, the last command is DEL of the lock key, and a lock read that raises logs that DEL alone. The lock key is then absent and other keys are as before. A free lock is taken before the block runs: the log gains exactly SETNX, EXPIRE, then DEL, and the call yields `True` or the block's exception. A lock key that is already set, with no other client to remove it, keeps the loop polling and the block never runs. |
| SyncProxy.RedisCacheProxy.HSet | pyredis/proxy/proxy.py:197-203 | `hset` runs HSET plus, for a truthy `ex`, EXPIRE as one pipeline, and raises the first failure. |
| SyncProxy.RedisCacheProxy.HMSet | pyredis/proxy/proxy.py:205-212 | `hmset` does the same with HMSET. An empty mapping is refused before anything is sent. |
| SyncProxy.RedisCacheProxy.GetJson | pyredis/proxy/proxy.py:239-246 | `get_json` is the hash read. |
| SyncProxy.JsonWrite | pyredis/proxy/proxy.py:248-262 | `set_json` issues at most one pipeline, all on the given key. A non-dict, and an empty dict, raise without sending anything. |
| SyncProxy.RedisCacheProxy.SetJson | pyredis/proxy/proxy.py:248-262 | The method has exactly the effect of `JsonWrite`. |
| SyncProxy.DataRead | pyredis/proxy/proxy.py:139-147 | `get_data` raises iff GET does. An absent key gives None, and a JSON text gives its value. |
| SyncProxy.DataWrite | pyredis/proxy/proxy.py:149-155 | `set_data` is a SET of the JSON text, or of the raw bytes when json.dumps refuses bytes. Any other unserialisable value is refused with no command. Every command is a SET of the key with the given `ex`. |
| SyncProxy.RedisCacheProxy.GetData | pyredis/proxy/proxy.py:139-147 | The method is `DataRead` on the current state. |
| SyncProxy.RedisCacheProxy.SetData | pyredis/proxy/proxy.py:149-155 | The method has exactly the effect of `DataWrite`. |
| SyncProxy.RedisCacheProxy.MemoSet | pyredis/proxy/proxy.py:301 | `set_func` is `set_json` or `set_data`, as `is_json` selects. |
| SyncProxy.WriteThenRead | pyredis/proxy/proxy.py:300-313 | Writing a truthy serialisable value with positive expiry over a falsy read succeeds. The read then gives the value back, a dict with its field names as bytes. |
| SyncProxy.RewriteKeepsRead | pyredis/proxy/proxy.py:304-305 | Refreshing a hit whose values json.dumps accepts succeeds and leaves the read unchanged. |
| SyncProxy.MemoKeyOrderFree | pyredis/proxy/proxy.py:299 | Keyword arguments in another order, or under other names, give the same memo key. |
| SyncProxy.Recover | pyredis/proxy/proxy.py:308-311 | The `except` branch writes nothing more. It raises `ValueError(e)` without calling `f` when `exception` is set, and otherwise returns `f(...)` after one call. |
| SyncProxy.MemoHit | pyredis/proxy/proxy.py:303-307 | A truthy read is returned without calling `f`. Without refresh nothing is written; with refresh the read is unchanged. |
| SyncProxy.MemoMiss | pyredis/proxy/proxy.py:312-314 | A miss calls `f` once and returns its result. A truthy serialisable result is stored under the memo key only. It reads back as the result, a dict with its field names as bytes. |
| SyncProxy.MemoTwice | pyredis/proxy/proxy.py:298-314 | Two calls with the same arguments over a miss call `f` once in total. The first returns `f`'s result. The second returns what the store gives back: the same value, except that a dict's field names are bytes. |
| SyncProxy.MemoReadFails | pyredis/proxy/proxy.py:308-311 | A read error writes nothing. It is re-raised wrapped when `exception` is set, and otherwise answered by one uncached call of `f`. |
| SyncProxy.AsWrittenJsonRefreshNeverCaches | pyredis/proxy/proxy.py:304-311 | As written, a hash memoizer with `is_update` stores nothing on a miss. The call falls back to `f` (or raises), so it never caches. |
| SyncProxy.DeletedIsMiss | pyredis/proxy/proxy.py:264-270 | After the memo key is removed, the next read is a falsy miss and the next call runs `f` once. |
| SyncProxy.RedisCacheProxy.MemoAfterRead | pyredis/proxy/proxy.py:304-314 | Once the read gave a value, the call has exactly the effect of the refresh of a hit followed by the hit or the miss, as `AfterRead` states it. |
| SyncProxy.RedisCacheProxy.Memoize | pyredis/proxy/proxy.py:296-314 | A decorated call has exactly the state, log, result and call count of `Memoized` under the `cache_per + key + ":" + digest` key. |
| SyncProxy.RedisCacheProxy.DeleteMemoize | pyredis/proxy/proxy.py:264-270 | `delete_memoize` removes the same key `memoize` derives: EXPIRE -1 when `is_safe`, otherwise DEL. Nothing else changes. |
| AsyncProxy.ScalarLoad | pyredis/proxy/async_proxy.py:311-313 | A missing or empty text loads as None. A wrong-type key raises. |
| AsyncProxy.ExpiryArg | pyredis/proxy/async_proxy.py:327 | `EX` is sent exactly for a non-zero expiry. |
| AsyncProxy.Save | pyredis/proxy/async_proxy.py:315-327 | `set` issues at most one command, and a call that issues none leaves the store unchanged and raises. A dict entry is `KeywordHashSave`, a string entry `ScalarSave`. |
| AsyncProxy.ScalarSave | pyredis/proxy/async_proxy.py:327 | A string entry is one `SET key json(data)`, with `EX` only for a non-zero expiry. Unserialisable data raises before anything is sent. |
| AsyncProxy.KeywordHashSave | pyredis/proxy/async_proxy.py:317-324 | A non-dict fails the `assert` with nothing sent. A non-empty `dict` whose field names are neither `key` nor `self` is the same HMSET and EXPIRE pipeline as the blocking proxy's. |
| AsyncProxy.QueuedFailure | pyredis/proxy/async_proxy.py:320-323 | When `hmset_dict` raises while it is queued, the pipeline still sends the EXPIRE queued after it, and the call raises that error. |
| AsyncProxy.EmptySaveStillExpires | pyredis/proxy/async_proxy.py:319-323 | `set` on an empty dict sends only the EXPIRE, which resets or removes an existing entry, and then raises. |
| AsyncProxy.SaveThenLoad | pyredis/proxy/async_proxy.py:304-327 | After a miss, saving a truthy serialisable value succeeds and loads back, a dict with its field names as bytes. Expiry 0 leaves a string entry without expiry. A dict entry needs a positive expiry and no field named `key` or `self`. |
| AsyncProxy.ReadBackNotSaved | pyredis/proxy/async_proxy.py:304-321 | A non-empty dict read back from a hash entry cannot be saved by the entry again: the `**` unpacking refuses its bytes field names before anything is sent. |
| AsyncProxy.AsWrittenKeywordFieldNotCached | pyredis/proxy/async_proxy.py:321 | As written, saving a dict with a field named `key` or `self` over a miss raises. The EXPIRE it still sends finds no key, so the store is unchanged and the entry stays a miss. |
| AsyncProxy.IntendedSaveThenLoad | pyredis/proxy/async_proxy.py:319-324 | With the mapping passed positionally, every truthy dict of serialisable values saved over a miss with a positive expiry succeeds and reads back, whatever its field names, bytes ones included. |
| AsyncProxy.AsyncSimpleCache.constructor | pyredis/proxy/async_proxy.py:288-302 | The entry starts with no data and the given key, expiry, encoding and flags. |
| AsyncProxy.AsyncSimpleCache.Get | pyredis/proxy/async_proxy.py:304-313 | `get` is the entry's load: None on a string miss, `{}` on a hash miss, the fields keyed by bytes on a hash hit. |
| AsyncProxy.AsyncSimpleCache.Set | pyredis/proxy/async_proxy.py:315-327 | `set` has exactly the effect of `Save` on the store and the log, and raises its failure. |
| AsyncProxy.AsyncSimpleCache.AEnter | pyredis/proxy/async_proxy.py:329-333 | `__aenter__` stores the loaded value and clears `update` on a truthy load. |
| AsyncProxy.AsyncSimpleCache.AExit | pyredis/proxy/async_proxy.py:335-340 | `__aexit__` writes exactly when `update` and `data` are truthy, and then swallows the exception whatever `is_except` is. Without a write it swallows iff `is_except` is off. |
| AsyncProxy.ScopeMissRoundTrip | pyredis/proxy/async_proxy.py:66-74 | A miss whose block assigns a truthy serialisable value writes it once; a dict must have no field named `key` or `self`. A second scope loads it as a hit and writes nothing; a dict loads with its field names as bytes. |
| AsyncProxy.RedisCacheProxy.WithCache | pyredis/proxy/async_proxy.py:66-74 | `with_cache` has exactly the state, log and outcome of the scope function. |
| AsyncProxy.RedisCacheProxy.SafeDelete | pyredis/proxy/async_proxy.py:182-184 | `safe_delete` is `EXPIRE key -1` and leaves the store without the key, whether or not it existed. |
| AsyncProxy.RedisCacheProxy.ReleaseLock | pyredis/proxy/async_proxy.py:130-135 | `release_lock` removes `lock:<key>` through `safe_delete`. |
| AsyncProxy.RedisCacheProxy.WithLock | pyredis/proxy/async_proxy.py:98-102 | On every exit path that returns, the last command is `EXPIRE lock:<key> -1`, and a lock read that raises logs that EXPIRE alone. The lock key is then absent and other keys are as before. A free lock is taken before the block runs: the log gains exactly SETNX, EXPIRE, then `EXPIRE -1`, and the call yields `True` or the block's exception. A lock key that is already set, with no other client to remove it, keeps the loop polling and the block never runs. |
| AsyncProxy.RedisCacheProxy.Get | pyredis/proxy/async_proxy.py:137-140 | `get` raises iff GET does. It gives None for an absent or empty text, and otherwise the stored string text. |
| AsyncProxy.FlattenFields | pyredis/proxy/async_proxy.py:250-252 | The loop succeeds iff every value is serialisable. It builds `2*|value|` arguments alternating name and JSON text, and they send exactly the encoded fields. |
| AsyncProxy.RedisCacheProxy.SetJson | pyredis/proxy/async_proxy.py:245-260 | An empty dict returns `True` with no command, and an unserialisable value raises with no command. Otherwise one pipeline of HMSET plus, for a truthy `ex`, EXPIRE. |
| AsyncProxy.DecodeReplies | pyredis/proxy/async_proxy.py:222 | The comprehension keeps the length. None stays None, every other reply is decoded, and it raises iff some non-None reply is not JSON. |
| AsyncProxy.EncodeArgs | pyredis/proxy/async_proxy.py:221 | The client's argument encoder succeeds iff every argument is a string, and then sends each as it is. |
| AsyncProxy.SpreadCall | pyredis/proxy/async_proxy.py:221 | `hmget(key, *fields)` is HMGET on exactly those fields, and it raises on an empty field list before anything is sent. |
| AsyncProxy.Zip | pyredis/proxy/async_proxy.py:229 | `dict(zip(fields, values))` over equally long sequences has exactly the fields as keys. |
| AsyncProxy.RedisCacheProxy.HMGetData | pyredis/proxy/async_proxy.py:217-222 | The method is the spread call `hmget(key, *fields)` and the decoding of its replies. So: one entry per requested field, None for a missing field and the decoded text otherwise. A non-hash key raises, and so does an empty field list. |
| AsyncProxy.ZipLast | pyredis/proxy/async_proxy.py:229 | In `dict(zip(fields, values))` a field maps to the value paired with its last occurrence. |
| AsyncProxy.HMGet2DictReadsBack | pyredis/proxy/async_proxy.py:224-229 | With the fields spread, every requested field maps to its decoded value, or to None where it is missing. |
| AsyncProxy.AsWrittenHMGet2DictRaises | pyredis/proxy/async_proxy.py:228-229 | As written, with the list as one argument of the modelled call, every call raises the encoder's refusal, whatever the store and the fields. |
| AsyncProxy.RedisCacheProxy.HMGet2DictData | pyredis/proxy/async_proxy.py:224-229 | The method is the corrected `HMGet2Dict` on the current state. |
| AsyncProxy.RedisCacheProxy.SAdd | pyredis/proxy/async_proxy.py:262-267 | An empty list returns 0 with no command. Otherwise one SADD, whose count is returned. |
| AsyncProxy.SAddMembers | pyredis/proxy/async_proxy.py:266 | SADD leaves the old members plus the new, each once. It returns how many members were added. |
| AsyncProxy.PopCount | pyredis/proxy/async_proxy.py:271 | A falsy count (None or 0) becomes 1, and any other count is kept. |
| AsyncProxy.RedisCacheProxy.SPop | pyredis/proxy/async_proxy.py:269-273 | The method sends one SPOP with that count and returns the popped list, or `[]` for an empty reply. |
| AsyncProxy.SPopSplits | pyredis/proxy/async_proxy.py:272 | SPOP returns `min(count, size)` members. Together with the members left they make up the old set, and none is both popped and left. |

## Left out

- Connection setup and teardown (`AsyncRedisCache`, the connection pool), the config re-keying and the HyperLogLog wrappers are network I/O or packaging.
- The one-line passthroughs of both proxies are not modelled: `get`/`set`, `get_many`/`set_many`, `delete`, `exists`, `hget`, `hkeys`, `smembers`, `scard` and the like. Exceptions:
  - the blocking `get_data`/`set_data`, which the memoizer uses;
  - the asyncio `get`.
- The asyncio `get_json` is the same hash read as the blocking one (`CacheCommon.HashLoad`). The asyncio `hget_data` and `hgetall` are left out as passthroughs.
- The asyncio `set_data` returns an un-awaited call with a keyword argument the asyncio client does not take. It is left out.
- AsyncSimpleCache's synchronous `__enter__`/`__exit__` only evaluate an `assert` on an exception object. They are left out.
- `simple_cache` is the constructor call inside `WithCache`.
- The store is always reachable. Connection failures are not modelled. Store refusals stand in for a read that raises: wrong type, invalid expiry, empty mapping.
- The caller's block never touches the store or `update`. It is given by what it leaves in `data` and whether it raises. Every exception it raises is the single `BlockRaised`.
- `time.sleep`/`asyncio.sleep` and their `step` parameter are not modelled: a pass that finds the lock held just polls again.
- CacheCommon.AcquireLock: polling is unbounded in the source, but the model runs at most `fuel` passes and reports `Waiting` when they run out. An acquire that never ends is therefore seen only up to `fuel` passes.
- Expiry is recorded as metadata, and no clock runs: an entry never expires by time. A non-positive EXPIRE removes the key at once.
- The gap between SETNX and EXPIRE, and interleavings with other clients, are out of scope. The model is sequential over one store.
- md5 is the uninterpreted `digest` function of the proxy, and the hex digest is not modelled.
- JSON text is abstract. A stored text is the encoding of a value or non-JSON text. SyncProxy.DataWrite therefore stores bytes as non-JSON text, even bytes whose content happens to parse as JSON.
- Python dicts keep insertion order, and Dafny maps do not. AsyncProxy.FlattenFields visits the fields in an unspecified order, so its contract is order-free.
- SPOP picks members at random. The model takes the oldest ones.
- `int(ex)` on a float expiry is not modelled: expiries are integers. So `ex=None` is not represented either. On the hash path that raises `TypeError` at `int(self._expire)` (proxy.py:380, async_proxy.py:322); on the blocking string path (proxy.py:383) it only means no expiry.
- SyncProxy.RedisCacheProxy.Memoize and SyncProxy.RedisCacheProxy.MemoAfterRead follow the corrected refresh, applied to hits only. The code as written is `SyncProxy.MemoizedAsWritten` (see "## Findings").
- AsyncProxy.RedisCacheProxy.HMGet2DictData follows the corrected call, with the fields spread. The code as written is `AsyncProxy.HMGet2DictAsWritten` (see "## Findings").
- `f` in `memoize` is a function of its arguments, and its own side effects are not modelled.
- The client returns replies as bytes, which is redis-py's default and what `res.decode("utf-8")` at async_proxy.py:313 needs. A client built to decode replies would hand back str field names. That setting is not modelled.
- AsyncProxy.Save, AsyncProxy.AsyncSimpleCache.Set and the asyncio scope keep the keyword call of async_proxy.py:321 as written. `AsyncProxy.IntendedSave` is the corrected call, stated beside them (see "## Findings"). When `hmset_dict` raises inside the pipeline, the model reports that error itself; the pipeline's own wrapping of it is not modelled.
- The asyncio client's encoder is modelled for str and list arguments only: bytes, int and float arguments never reach `hmget` here.

## Findings

| source | as written | input that shows it | evidently intended | confidence | as-written member | corrected member |
|---|---|---|---|---|---|---|
| pyredis/proxy/proxy.py:304-305 | With `is_update`, the read value is written back even on a miss. With `is_json`, that sends `{}` to HMSET. The client library refuses an empty mapping, and the `except` turns the refusal into an uncached call of `f`, or a `ValueError`. | `memoize(key, is_json=True, is_update=True)` on an absent cache key: every call runs `f`, and nothing is ever stored. | Refresh only a truthy read, so a miss falls through to `f` and its result is cached. | medium, not executed; depends on the client library refusing an empty HMSET mapping | SyncProxy.MemoizedAsWritten, SyncProxy.AsWrittenJsonRefreshNeverCaches | SyncProxy.Memoized, SyncProxy.MemoTwice |
| pyredis/proxy/async_proxy.py:228 | `hmget(key, fields)` passes the field list as a single argument. The asyncio client's encoder accepts only bytes, str, int and float arguments. | Any call, for instance `hmget2dict_data("h", ["a"])`: the encoder refuses the list and the call raises. | Spread the fields, as `hmget_data` does at line 221. | medium, not executed; depends on the asyncio client's argument encoder | AsyncProxy.HMGet2DictAsWritten, AsyncProxy.AsWrittenHMGet2DictRaises | AsyncProxy.HMGet2Dict, AsyncProxy.SpreadCall, AsyncProxy.HMGet2DictReadsBack |
| pyredis/proxy/async_proxy.py:321 | `hmset_dict(self._key, **cache_data)` passes every field as a keyword argument of the client's `hmset_dict(self, key, *args, **kwargs)`. A field named `key` or `self` repeats a parameter, so the call raises `TypeError`. The pipeline then sends only the EXPIRE and raises. | An `AsyncSimpleCache` with `is_json` over a miss whose block assigns `{"key": 1}`: the save raises and nothing is stored, so every later scope misses again. | Pass the mapping positionally, `hmset_dict(self._key, cache_data)`, so any dict of serialisable values is written. | medium, not executed; depends on the asyncio client's `hmset_dict` signature and on its pipeline deferring errors raised while queueing | AsyncProxy.KeywordHashSave, AsyncProxy.AsWrittenKeywordFieldNotCached | AsyncProxy.IntendedSave, AsyncProxy.IntendedSaveThenLoad |

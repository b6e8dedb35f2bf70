/** Pieces both proxies share: the hash encoding of a dict (one JSON text
    per field), the hash read `{k: json.loads(v) ...}`, the lock key, the
    caller's `with` block, and the effect of a write. */
module CacheCommon {
  import opened Values
  import opened Store

  /** `{k: json.loads(v) for k, v in data.items()}` */
  function DecodeFields(f: map<string, Text>): (r: Result<map<string, Value>>)
    ensures r.Ok? <==> forall k :: k in f ==> Loads(f[k]).Ok?
    ensures r.Ok? ==> r.value.Keys == f.Keys && forall k :: k in f ==> Loads(f[k]) == Ok(r.value[k])
    ensures r.Err? ==> r.error == DecodeError
  {
    if forall k :: k in f ==> Loads(f[k]).Ok? then Ok(map k | k in f :: Loads(f[k]).value)
    else Err(DecodeError)
  }

  /** `{k: json.dumps(v) for k, v in value.items()}` */
  function EncodeFields(m: map<string, Value>): (r: Result<map<string, Text>>)
    ensures r.Ok? <==> forall k :: k in m ==> Jsonable(m[k])
    ensures r.Ok? ==> r.value.Keys == m.Keys && forall k :: k in m ==> Dumps(m[k]) == Ok(r.value[k])
    ensures r.Err? ==> r.error == NotSerializable
  {
    if forall k :: k in m ==> Jsonable(m[k]) then Ok(map k | k in m :: Dumps(m[k]).value)
    else Err(NotSerializable)
  }

  /** Decoding the encoded fields gives the dict back. */
  lemma FieldsRoundTrip(m: map<string, Value>)
    requires EncodeFields(m).Ok?
    ensures DecodeFields(EncodeFields(m).value) == Ok(m)
  {
    var enc := EncodeFields(m).value;
    assert forall k :: k in enc ==> Loads(enc[k]) == Ok(m[k]);
    assert DecodeFields(enc).value == m;
  }

  /** The hash read of `get_json` and of the hash cache entry: HGETALL,
      then `{}` for an empty reply and the decoded fields otherwise. The
      comprehension keeps the field names HGETALL hands back, which are
      bytes, so a non-empty read is `ByteKeyed`. */
  function HashLoad(s: State, key: string): (r: Result<Value>)
    ensures r.Ok? ==> IsDict(r.value)
    ensures r.Ok? && Truthy(r.value) ==> r.value.ByteKeyed?
    ensures WellFormed(s) && r.Ok? ==> (Truthy(r.value) <==> key in s.db)
  {
    match HGetAllReply(s, key)
    case Err(e) => Err(e)
    case Ok(f) =>
      if f == map[] then Ok(Dict(map[]))
      else match DecodeFields(f)
        case Ok(m) => Ok(ByteKeyed(m))
        case Err(e) => Err(e)
  }

  /** A dict whose values json.dumps accepts; its keys may be bytes, since
      only the values are dumped before HMSET. */
  predicate HashWritable(v: Value) {
    IsDict(v) && forall k :: k in v.fields ==> Jsonable(v.fields[k])
  }

  /** What a later read gives for a value written to the store: a hash
      entry comes back keyed by bytes, a string entry as it was. */
  function AsRead(v: Value, hash: bool): Value
    requires hash ==> IsDict(v)
  {
    if hash then ByteKeyed(v.fields) else v
  }

  /** The store key of the lock on `key`. */
  function LockKey(key: string): string {
    "lock:" + key
  }

  /** The value SETNX stores in a lock key: the integer 1, as text. */
  const LockMark: Text := Encoded(Int(1))

  /** `if self._client.get("lock:" + key)`: the lock reads as held. */
  function LockHeld(s: State, key: string): (r: Result<bool>)
    ensures r.Ok? && r.value ==> LockKey(key) in s.db
    ensures r.Err? <==> LockKey(key) in s.db && !s.db[LockKey(key)].Scalar?
  {
    match GetReply(s, LockKey(key))
    case Err(e) => Err(e)
    case Ok(g) => Ok(g.Some? && Present(g.value))
  }

  /** The state after a winning acquire: SETNX of the lock key, then
      EXPIRE with the lock's lifetime. */
  function Grab(s: State, key: string, expire: int): State {
    var lk := LockKey(key);
    ExpireResult(SetNxResult(s, lk, LockMark).0, lk, expire).0
  }

  /** A winning acquire leaves the lock key set with that expiry, or, for a
      non-positive expiry, already gone; other keys are untouched. */
  lemma WonLock(s: State, key: string, expire: int)
    requires WellFormed(s) && LockKey(key) !in s.db
    ensures var lk := LockKey(key);
            var after := Grab(s, key, expire);
            && SetNxResult(s, lk, LockMark).1
            && Drop(after, lk) == Drop(s, lk)
            && (expire > 0 ==> lk in after.db && after.db[lk] == Scalar(LockMark) && after.ttl[lk] == expire)
            && (expire <= 0 ==> lk !in after.db)
  {
  }

  /** `check_lock` */
  method CheckLock(client: Client, key: string) returns (r: Result<bool>)
    ensures r == LockHeld(client.state, key)
  {
    var g := client.Get(LockKey(key));
    if g.Err? {
      return Err(g.error);
    }
    r := Ok(g.value.Some? && Present(g.value.value));
  }

  /** One pass of the `acquire_lock` loop. */
  method TryAcquire(client: Client, key: string, expire: int) returns (r: Result<Attempt>)
    requires client.Valid()
    modifies client
    ensures client.Valid()
    ensures var s := old(client.state);
            var lk := LockKey(key);
            match LockHeld(s, key)
            case Err(e) => r == Err(e) && client.state == s && client.writes == old(client.writes)
            case Ok(held) =>
              if held then r == Ok(Busy) && client.state == s && client.writes == old(client.writes)
              else if lk in s.db then
                r == Ok(Lost) && client.state == s && client.writes == old(client.writes) + [SetNxCmd(lk, LockMark)]
              else
                && r == Ok(Acquired) && client.state == Grab(s, key, expire)
                && client.writes == old(client.writes) + [SetNxCmd(lk, LockMark), ExpireCmd(lk, expire)]
  {
    var lk := LockKey(key);
    var g := client.Get(lk);
    if g.Err? {
      return Err(g.error);
    }
    if g.value.Some? && Present(g.value.value) {
      return Ok(Busy);
    }
    var won := client.SetNx(lk, LockMark);
    if !won {
      return Ok(Lost);
    }
    var _ := client.Expire(lk, expire);
    r := Ok(Acquired);
  }

  /** `acquire_lock`, run for at most `fuel` passes; the sleep between
      passes is not modelled. The state never changes before the lock is
      won, so every pass sees what the first one saw. */
  method AcquireLock(client: Client, key: string, expire: int, fuel: nat) returns (r: Acquire)
    requires client.Valid()
    modifies client
    ensures client.Valid()
    ensures var s := old(client.state);
            var lk := LockKey(key);
            if fuel == 0 then r == Waiting && client.state == s && client.writes == old(client.writes)
            else match LockHeld(s, key)
              case Err(e) => r == Failed(e) && client.state == s && client.writes == old(client.writes)
              case Ok(held) =>
                if held then r == Waiting && client.state == s && client.writes == old(client.writes)
                else if lk in s.db then
                  r == Waiting && client.state == s && client.writes == old(client.writes) + Repeat(SetNxCmd(lk, LockMark), fuel)
                else
                  && r == Granted && client.state == Grab(s, key, expire)
                  && client.writes == old(client.writes) + [SetNxCmd(lk, LockMark), ExpireCmd(lk, expire)]
  {
    ghost var s := client.state;
    ghost var log := client.writes;
    var lk := LockKey(key);
    ghost var racing := LockHeld(s, key) == Ok(false) && lk in s.db;
    var n: nat := fuel;
    while n > 0
      invariant n <= fuel
      invariant client.Valid() && client.state == s
      invariant client.writes == log + (if racing then Repeat(SetNxCmd(lk, LockMark), fuel - n) else [])
      invariant n < fuel ==> LockHeld(s, key).Ok? && (racing || LockHeld(s, key) == Ok(true))
      decreases n
    {
      var a := TryAcquire(client, key, expire);
      if a.Err? {
        return Failed(a.error);
      }
      if a.value == Acquired {
        return Granted;
      }
      n := n - 1;
    }
    assert Repeat(SetNxCmd(lk, LockMark), 0) == [] && log + [] == log;
    r := Waiting;
  }

  /** While a granted lock lives, it reads as held, so every other
      acquirer polls (mutual exclusion in a sequential store). */
  lemma GrantedExcludes(s: State, key: string, expire: int)
    requires WellFormed(s) && LockKey(key) !in s.db && expire > 0
    ensures LockHeld(Grab(s, key, expire), key) == Ok(true)
  {
    WonLock(s, key, expire);
  }

  /** A second SETNX on a held lock key fails and changes nothing. */
  lemma SecondSetNxFails(s: State, key: string, t: Text)
    ensures var s1 := SetNxResult(s, LockKey(key), LockMark).0;
            SetNxResult(s1, LockKey(key), t) == (s1, false)
  {
  }

  /** After the lock key is removed, by DEL or by EXPIRE -1, the lock
      reads as free; removing it again changes nothing. */
  lemma ReleasedIsFree(s: State, key: string)
    ensures LockHeld(DeleteResult(s, LockKey(key)).0, key) == Ok(false)
    ensures LockHeld(ExpireResult(s, LockKey(key), -1).0, key) == Ok(false)
    ensures DeleteResult(DeleteResult(s, LockKey(key)).0, LockKey(key)).0 == DeleteResult(s, LockKey(key)).0
    ensures ExpireResult(ExpireResult(s, LockKey(key), -1).0, LockKey(key), -1).0 == ExpireResult(s, LockKey(key), -1).0
  {
  }

  /** What the caller's `with` block does to the entry: it may assign
      `cache.data`, and it may raise. It does not use the store. */
  datatype BlockEffect = BlockEffect(assign: Option<Value>, raises: bool)

  function DataAfter(eff: BlockEffect, loaded: Value): Value {
    if eff.assign.Some? then eff.assign.value else loaded
  }

  /** The outcome of a write: the new state, the commands issued, and the
      exception raised, if any. */
  datatype Effect = Effect(state: State, issued: seq<Cmd>, failure: Option<Error>)

  /** One pass of the acquire loop: the lock was won, it was held (the loop
      sleeps), or SETNX lost a race (the loop retries at once). */
  datatype Attempt = Acquired | Busy | Lost

  /** Where the acquire loop stands: it returned, it raised, or it is still
      polling (the model runs a bounded number of passes). */
  datatype Acquire = Granted | Failed(error: Error) | Waiting

  /** `n` copies of a command. */
  function Repeat(c: Cmd, n: nat): (r: seq<Cmd>)
    ensures |r| == n && forall i :: 0 <= i < n ==> r[i] == c
  {
    if n == 0 then [] else Repeat(c, n - 1) + [c]
  }

  /** A SET as an effect. */
  function SetEffect(s: State, key: string, t: Text, ex: Option<int>): Effect {
    var c := SetCmd(key, t, ex);
    match SetResult(s, key, t, ex)
    case Ok(s') => Effect(s', [c], None)
    case Err(e) => Effect(s, [c], Some(e))
  }

  /** SET of a value's JSON text with a valid expiry succeeds, touches no
      other key, keeps the store well formed, and GET gives the text back. */
  lemma SetThenGet(s: State, key: string, v: Value, ex: Option<int>)
    requires WellFormed(s) && Jsonable(v) && (ex.Some? ==> ex.value > 0)
    ensures var w := SetEffect(s, key, Encoded(v), ex);
            && w.failure == None && WellFormed(w.state)
            && (ex.Some? ==> key in w.state.ttl && w.state.ttl[key] == ex.value)
            && (ex.None? ==> key !in w.state.ttl)
            && Drop(w.state, key) == Drop(s, key)
            && GetReply(w.state, key) == Ok(Some(Encoded(v)))
  {
    var w := SetEffect(s, key, Encoded(v), ex);
    assert Drop(w.state, key).db == Drop(s, key).db;
  }

  /** A pipeline of one write and, when `ex` is truthy, `EXPIRE key int(ex)`. */
  function Expiring(q: Queued, ex: Option<int>): seq<Queued> {
    [q] + (if ex.Some? && ex.value != 0 then [QExpire(ex.value)] else [])
  }

  /** Runs a pipeline on `key` and reports it as an effect. */
  function PipelineWrite(s: State, key: string, qs: seq<Queued>): Effect {
    var p := ExecResult(s, key, qs);
    Effect(p.0, [ExecCmd(key, qs)], match FirstError(p.1) case Ok(_) => None case Err(e) => Some(e))
  }

  /** A two-command pipeline whose commands both succeed: the state after
      the second, and no failure. */
  lemma PipelinePair(s: State, key: string, q1: Queued, q2: Queued)
    requires RunQueued(s, key, q1).1.Ok? && RunQueued(RunQueued(s, key, q1).0, key, q2).1.Ok?
    ensures PipelineWrite(s, key, [q1, q2])
            == Effect(RunQueued(RunQueued(s, key, q1).0, key, q2).0, [ExecCmd(key, [q1, q2])], None)
  {
    var qs := [q1, q2];
    var s1 := RunQueued(s, key, q1);
    var s2 := RunQueued(s1.0, key, q2);
    assert qs[0] == q1 && qs[1..] == [q2] && qs[1..][0] == q2 && qs[1..][1..] == [];
    assert ExecResult(s2.0, key, []) == (s2.0, []);
    assert [s2.1] + [] == [s2.1];
    assert ExecResult(s1.0, key, qs[1..]) == (s2.0, [s2.1]);
    assert [s1.1] + [s2.1] == [s1.1, s2.1];
    assert ExecResult(s, key, qs) == (s2.0, [s1.1, s2.1]);
    var rs := [s1.1, s2.1];
    assert rs[1..] == [s2.1] && rs[1..][1..] == [];
    assert FirstError(rs[1..][1..]) == Ok([]);
    assert FirstError(rs[1..]).Ok?;
    assert FirstError(rs).Ok?;
  }

  /** A one-command pipeline whose command succeeds. */
  lemma PipelineSingle(s: State, key: string, q: Queued)
    requires RunQueued(s, key, q).1.Ok?
    ensures PipelineWrite(s, key, [q]) == Effect(RunQueued(s, key, q).0, [ExecCmd(key, [q])], None)
  {
    var qs := [q];
    var s1 := RunQueued(s, key, q);
    assert qs[0] == q && qs[1..] == [];
    assert ExecResult(s1.0, key, []) == (s1.0, []);
    assert [s1.1] + [] == [s1.1];
    assert ExecResult(s, key, qs) == (s1.0, [s1.1]);
    var rs := [s1.1];
    assert rs[1..] == [];
    assert FirstError(rs[1..]) == Ok([]);
    assert FirstError(rs).Ok?;
  }

  /** The hash that writing `fields` (HSET or HMSET) to `key` leaves behind,
      when the key is absent or already a hash. */
  function MergedFields(s: State, key: string, fields: map<string, Text>): map<string, Text> {
    if key in s.db && s.db[key].Hash? then s.db[key].fields + fields else fields
  }

  /** The fields a hash write (HSET or HMSET) sends. */
  function QueuedFields(q: Queued): map<string, Text> {
    match q
    case QHSet(f, t) => map[f := t]
    case QHMSet(fields) => fields
    case QExpire(_) => map[]
  }

  /** A hash write of non-empty fields to an absent key or a hash merges
      its fields in and changes nothing else. */
  lemma HashStep(s: State, key: string, q: Queued)
    requires key !in s.db || s.db[key].Hash?
    requires q.QHSet? || (q.QHMSet? && q.fields != map[])
    ensures RunQueued(s, key, q).1.Ok?
    ensures RunQueued(s, key, q).0 == State(s.db[key := Hash(MergedFields(s, key, QueuedFields(q)))], s.ttl)
  {
    if q.QHSet? && key in s.db {
      assert s.db[key].fields[q.field := q.text] == s.db[key].fields + QueuedFields(q);
    }
  }

  /** An `Expiring` hash write of non-empty fields to an absent key or a
      hash succeeds, leaves the old fields merged with the new ones, sets
      the expiry when `ex` is positive and keeps the old one when `ex` is
      absent or zero; no other key changes. */
  lemma HashWriteMerges(s: State, key: string, q: Queued, ex: Option<int>)
    requires key !in s.db || s.db[key].Hash?
    requires q.QHSet? || (q.QHMSet? && q.fields != map[])
    requires ex.Some? ==> ex.value >= 0
    ensures var w := PipelineWrite(s, key, Expiring(q, ex));
            && w.failure == None
            && w.issued == [ExecCmd(key, Expiring(q, ex))]
            && key in w.state.db && w.state.db[key] == Hash(MergedFields(s, key, QueuedFields(q)))
            && (ex.Some? && ex.value > 0 ==> key in w.state.ttl && w.state.ttl[key] == ex.value)
            && (ex.None? || ex.value == 0 ==> w.state.ttl == s.ttl)
            && Drop(w.state, key) == Drop(s, key)
  {
    HashStep(s, key, q);
    if ex.Some? && ex.value != 0 {
      assert Expiring(q, ex) == [q, QExpire(ex.value)];
      PipelinePair(s, key, q, QExpire(ex.value));
    } else {
      assert Expiring(q, ex) == [q];
      PipelineSingle(s, key, q);
    }
  }

  // ---------------------------------------------------------------------
  // The scoped cache entry, for either proxy

  /** `SimpleCache.set` for a dict entry: HMSET of the encoded fields and
      an unconditional `EXPIRE key int(ex)`, in one pipeline. */
  function HashSave(s: State, key: string, ex: int, data: Value): (r: Effect)
    ensures |r.issued| <= 1
    ensures r.issued == [] ==> r.state == s && r.failure.Some?
    ensures !IsDict(data) ==> r == Effect(s, [], Some(NotADict))
    ensures IsDict(data) && data.fields == map[] ==> r == Effect(s, [], Some(EmptyMapping))
  {
    if !IsDict(data) then Effect(s, [], Some(NotADict))
    else match EncodeFields(data.fields)
      case Err(e) => Effect(s, [], Some(e))
      case Ok(enc) =>
        if enc == map[] then Effect(s, [], Some(EmptyMapping))
        else PipelineWrite(s, key, [QHMSet(enc), QExpire(ex)])
  }

  /** Saving a non-empty dict of serialisable values to an absent key with
      a positive expiry succeeds, keeps the store well formed, sets the
      expiry, and the hash read gives the same fields back, keyed by bytes. */
  lemma HashSaveThenLoad(s: State, key: string, ex: int, v: Value)
    requires WellFormed(s) && key !in s.db && ex > 0
    requires Truthy(v) && HashWritable(v)
    ensures var w := HashSave(s, key, ex, v);
            && w.failure == None
            && WellFormed(w.state)
            && key in w.state.ttl && w.state.ttl[key] == ex
            && Drop(w.state, key) == Drop(s, key)
            && HashLoad(w.state, key) == Ok(ByteKeyed(v.fields))
  {
    var enc := EncodeFields(v.fields).value;
    assert enc.Keys == v.fields.Keys;
    assert Expiring(QHMSet(enc), Some(ex)) == [QHMSet(enc), QExpire(ex)];
    HashWriteMerges(s, key, QHMSet(enc), Some(ex));
    ExecWellFormed(s, key, [QHMSet(enc), QExpire(ex)]);
    var w := HashSave(s, key, ex, v);
    assert w.state.db[key] == Hash(enc);
    assert HGetAllReply(w.state, key) == Ok(enc);
    FieldsRoundTrip(v.fields);
  }

  /** A truthy hash read of serialisable values comes from a hash whose
      fields are exactly their encoding. */
  lemma LoadedFieldsAreEncoded(s: State, key: string, v: Value)
    requires HashLoad(s, key) == Ok(v) && Truthy(v) && HashWritable(v)
    ensures key in s.db && s.db[key].Hash?
    ensures EncodeFields(v.fields) == Ok(s.db[key].fields)
  {
    var prior := s.db[key].fields;
    var enc := EncodeFields(v.fields).value;
    assert DecodeFields(prior) == Ok(v.fields);
    assert enc.Keys == v.fields.Keys == prior.Keys;
    assert forall k :: k in prior ==> Loads(prior[k]) == Ok(v.fields[k]) && Loads(enc[k]) == Ok(v.fields[k]);
    assert forall k :: k in prior ==> enc[k] == Encoded(v.fields[k]) && prior[k] == Encoded(v.fields[k]);
    assert enc == prior;
  }

  /** Writing back what a truthy hash read gave succeeds, keeps the store
      well formed, and leaves the read unchanged. */
  lemma HashRewriteKeepsLoad(s: State, key: string, ex: int, v: Value)
    requires WellFormed(s) && ex > 0
    requires HashLoad(s, key) == Ok(v) && Truthy(v) && HashWritable(v)
    ensures var w := HashSave(s, key, ex, v);
            w.failure == None && WellFormed(w.state) && HashLoad(w.state, key) == Ok(v)
  {
    LoadedFieldsAreEncoded(s, key, v);
    var enc := EncodeFields(v.fields).value;
    assert s.db[key].fields + enc == enc;
    HashWriteMerges(s, key, QHMSet(enc), Some(ex));
    assert Expiring(QHMSet(enc), Some(ex)) == [QHMSet(enc), QExpire(ex)];
    ExecWellFormed(s, key, [QHMSet(enc), QExpire(ex)]);
    var w := HashSave(s, key, ex, v);
    assert w.state.db[key] == Hash(enc);
    assert HGetAllReply(w.state, key) == Ok(enc);
    FieldsRoundTrip(v.fields);
  }

  /** What one `with_cache` scope did: the new state, the commands it
      issued, how it ended (the final `cache.data`, or the exception that
      left the scope), what it loaded and whether the entry was dirty. */
  datatype Scope = Scope(state: State, issued: seq<Cmd>, outcome: Result<Value>, loaded: Value, dirty: bool)

  /** `with_cache`, given what the entry's load gives and what its write
      does: a failing load raises before the block runs and, since
      `data` is still unset, the `finally` writes nothing; otherwise a hit
      clears `update`, the block runs, and the `finally` writes a truthy
      value back when `update` is still set, even if the block raised. */
  function CacheScope(s: State, load: Result<Value>, save: Value -> Effect, isUpdate: bool, block: BlockEffect): Scope {
    match load
    case Err(e) => Scope(s, [], Err(e), Nil, isUpdate)
    case Ok(d) =>
      var dirty := isUpdate && !Truthy(d);
      var final := DataAfter(block, d);
      var w := if dirty && Truthy(final) then save(final) else Effect(s, [], None);
      var outcome := if w.failure.Some? then Err(w.failure.value)
                     else if block.raises then Err(BlockRaised) else Ok(final);
      Scope(w.state, w.issued, outcome, d, dirty)
  }

  /** A load that fails ends the scope with that exception, and nothing is
      written. */
  lemma ScopeLoadFails(s: State, load: Result<Value>, save: Value -> Effect, isUpdate: bool, block: BlockEffect)
    requires load.Err?
    ensures var sc := CacheScope(s, load, save, isUpdate, block);
            sc.state == s && sc.issued == [] && sc.outcome == Err(load.error)
  {
  }

  /** A hit is never written back, whatever the block assigns. */
  lemma ScopeHitWritesNothing(s: State, load: Result<Value>, save: Value -> Effect, isUpdate: bool, block: BlockEffect)
    requires load.Ok? && Truthy(load.value)
    ensures var sc := CacheScope(s, load, save, isUpdate, block);
            && sc.state == s && sc.issued == [] && !sc.dirty && sc.loaded == load.value
            && sc.outcome == (if block.raises then Err(BlockRaised) else Ok(DataAfter(block, load.value)))
  {
  }

  /** After a miss with `is_update`, the entry is written exactly when the
      block leaves a truthy value, and then with that value. */
  lemma ScopeMissWritesOnce(s: State, load: Result<Value>, save: Value -> Effect, block: BlockEffect)
    requires load.Ok? && !Truthy(load.value)
    ensures var sc := CacheScope(s, load, save, true, block);
            var final := DataAfter(block, load.value);
            && sc.dirty
            && (Truthy(final) ==> sc.state == save(final).state && sc.issued == save(final).issued)
            && (!Truthy(final) ==> sc.state == s && sc.issued == [] && sc.outcome == (if block.raises then Err(BlockRaised) else Ok(final)))
  {
  }

  /** With `is_update` off, nothing is ever written. */
  lemma ScopeNoUpdateWritesNothing(s: State, load: Result<Value>, save: Value -> Effect, block: BlockEffect)
    ensures var sc := CacheScope(s, load, save, false, block);
            sc.state == s && sc.issued == []
  {
  }
}

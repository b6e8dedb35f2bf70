/** The cooperative proxy: `AsyncSimpleCache`, the `with_cache` scope
    around it, the lock, and the hash and set helpers of the asyncio
    `RedisCacheProxy`. Each coroutine runs to completion between its store
    round trips, so it is modelled as a sequential method. */
module AsyncProxy {
  import opened Values
  import opened Store
  import opened CacheCommon

  // ---------------------------------------------------------------------
  // The scoped cache entry

  /** `AsyncSimpleCache.get` for a string entry: a missing or empty text
      reads as `None`, anything else goes through json.loads. */
  function ScalarLoad(s: State, key: string): (r: Result<Value>)
    ensures GetReply(s, key).Ok? && (GetReply(s, key).value.None? || !Present(GetReply(s, key).value.value))
            ==> r == Ok(Nil)
    ensures GetReply(s, key).Err? ==> r == Err(GetReply(s, key).error)
  {
    match GetReply(s, key)
    case Err(e) => Err(e)
    case Ok(g) => if g.None? || !Present(g.value) then Ok(Nil) else Loads(g.value)
  }

  /** `AsyncSimpleCache.get` */
  function Load(s: State, key: string, isJson: bool): Result<Value> {
    if isJson then HashLoad(s, key) else ScalarLoad(s, key)
  }

  /** The expiry argument of the client's `set`: it sends `EX` only for a
      truthy `expire`. */
  function ExpiryArg(ex: int): (r: Option<int>)
    ensures r.None? <==> ex == 0
    ensures r.Some? ==> r.value == ex
  {
    if ex != 0 then Some(ex) else None
  }

  /** `AsyncSimpleCache.set` for a string entry: one SET, with `EX` only
      for a non-zero expiry. */
  function ScalarSave(s: State, key: string, ex: int, data: Value): (r: Effect)
    ensures !Jsonable(data) ==> r == Effect(s, [], Some(NotSerializable))
    ensures Jsonable(data) ==> r.issued == [SetCmd(key, Encoded(data), ExpiryArg(ex))]
  {
    match Dumps(data)
    case Err(e) => Effect(s, [], Some(e))
    case Ok(t) => SetEffect(s, key, t, ExpiryArg(ex))
  }

  /** Field names that can be passed as keyword arguments of the client's
      `hmset_dict(self, key, *args, **kwargs)`: neither repeats one of its
      named parameters. */
  predicate KeywordSafe(fields: map<string, Value>) {
    "key" !in fields && "self" !in fields
  }

  /** A pipeline whose `hmset_dict` raised while it was queued: the
      pipeline keeps the exception, `execute` still sends the EXPIRE queued
      after it, and then raises. */
  function QueuedFailure(s: State, key: string, ex: int, e: Error): (r: Effect)
    ensures r.failure == Some(e)
    ensures r.issued == [ExecCmd(key, [QExpire(ex)])]
  {
    var w := PipelineWrite(s, key, [QExpire(ex)]);
    Effect(w.state, w.issued, Some(e))
  }

  /** `AsyncSimpleCache.set` for a dict entry as written: the `assert`, the
      dumps comprehension, then `hmset_dict(self._key, **cache_data)` and
      EXPIRE in one pipeline. Bytes field names are refused by the `**`
      unpacking before anything is queued; an empty dict, or a field named
      `key` or `self`, makes `hmset_dict` itself raise inside the pipeline. */
  function KeywordHashSave(s: State, key: string, ex: int, data: Value): (r: Effect)
    ensures |r.issued| <= 1
    ensures r.issued == [] ==> r.state == s && r.failure.Some?
    ensures data.Dict? && data.fields != map[] && KeywordSafe(data.fields) ==> r == HashSave(s, key, ex, data)
    ensures !IsDict(data) ==> r == Effect(s, [], Some(NotADict))
  {
    if !IsDict(data) then Effect(s, [], Some(NotADict))
    else match EncodeFields(data.fields)
      case Err(e) => Effect(s, [], Some(e))
      case Ok(enc) =>
        if data.ByteKeyed? && enc != map[] then Effect(s, [], Some(NonStrKeyword))
        else if enc == map[] then QueuedFailure(s, key, ex, EmptyMapping)
        else if !KeywordSafe(data.fields) then QueuedFailure(s, key, ex, ArgumentClash)
        else PipelineWrite(s, key, [QHMSet(enc), QExpire(ex)])
  }

  /** `AsyncSimpleCache.set` */
  function Save(s: State, key: string, ex: int, isJson: bool, data: Value): (r: Effect)
    ensures |r.issued| <= 1
    ensures r.issued == [] ==> r.state == s && r.failure.Some?
  {
    if isJson then KeywordHashSave(s, key, ex, data) else ScalarSave(s, key, ex, data)
  }

  /** Saving a truthy, serialisable value over a miss succeeds and the next
      load gives it back. A string entry with expiry 0 is kept without
      one; a dict entry needs a positive expiry, since its EXPIRE is sent
      whatever the value, and field names the keyword call accepts. A dict
      comes back with its field names as bytes. */
  lemma SaveThenLoad(s: State, key: string, ex: int, isJson: bool, v: Value)
    requires WellFormed(s)
    requires Load(s, key, isJson).Ok? && !Truthy(Load(s, key, isJson).value)
    requires Truthy(v) && Jsonable(v)
    requires if isJson then v.Dict? && KeywordSafe(v.fields) && ex > 0 else ex >= 0
    ensures var w := Save(s, key, ex, isJson, v);
            && w.failure == None
            && WellFormed(w.state)
            && (ex > 0 ==> key in w.state.ttl && w.state.ttl[key] == ex)
            && (ex == 0 ==> key !in w.state.ttl)
            && Drop(w.state, key) == Drop(s, key)
            && Load(w.state, key, isJson) == Ok(AsRead(v, isJson))
  {
    var w := Save(s, key, ex, isJson, v);
    if isJson {
      HashSaveThenLoad(s, key, ex, v);
    } else {
      SetThenGet(s, key, v, ExpiryArg(ex));
    }
  }

  /** So a non-empty dict read back from a hash entry cannot be saved by
      this entry again: the keyword unpacking refuses it before anything
      is sent. */
  lemma ReadBackNotSaved(s: State, key: string, ex: int, v: Value)
    requires HashLoad(s, key) == Ok(v) && Truthy(v) && HashWritable(v)
    ensures Save(s, key, ex, true, v) == Effect(s, [], Some(NonStrKeyword))
  {
    LoadedFieldsAreEncoded(s, key, v);
  }

  /** As written, a dict with a field named `key` or `self` is never
      cached: the save raises, and the EXPIRE it still sends finds no key,
      so the entry stays a miss. */
  lemma AsWrittenKeywordFieldNotCached(s: State, key: string, ex: int, v: Value)
    requires WellFormed(s)
    requires HashLoad(s, key).Ok? && !Truthy(HashLoad(s, key).value)
    requires v.Dict? && Truthy(v) && HashWritable(v) && !KeywordSafe(v.fields)
    ensures var w := Save(s, key, ex, true, v);
            && w.failure == Some(ArgumentClash)
            && w.state == s
            && HashLoad(w.state, key) == HashLoad(s, key)
  {
    var enc := EncodeFields(v.fields).value;
    assert enc.Keys == v.fields.Keys && enc != map[];
    assert key !in s.db;
    var q := [QExpire(ex)];
    assert q[1..] == [];
    assert RunQueued(s, key, q[0]).0 == s;
    assert ExecResult(s, key, q).0 == s;
    assert KeywordHashSave(s, key, ex, v) == QueuedFailure(s, key, ex, ArgumentClash);
  }

  /** `set` on an empty dict still sends the EXPIRE queued after the
      refused `hmset_dict`: an existing entry gets the new expiry (or is
      removed, for a non-positive one), and the call raises. */
  lemma EmptySaveStillExpires(s: State, key: string, ex: int, v: Value)
    requires IsDict(v) && v.fields == map[]
    ensures var w := Save(s, key, ex, true, v);
            && w.failure == Some(EmptyMapping)
            && w.issued == [ExecCmd(key, [QExpire(ex)])]
            && w.state == ExpireResult(s, key, ex).0
  {
    var q := [QExpire(ex)];
    assert q[1..] == [];
    assert EncodeFields(v.fields) == Ok(map[]);
    assert RunQueued(s, key, q[0]).0 == ExpireResult(s, key, ex).0;
    assert ExecResult(s, key, q).0 == ExpireResult(s, key, ex).0;
  }

  /** `set` with the mapping passed positionally, `hmset_dict(self._key,
      cache_data)`, which writes every dict as the blocking proxy does. */
  function IntendedSave(s: State, key: string, ex: int, isJson: bool, data: Value): Effect {
    if isJson then HashSave(s, key, ex, data) else ScalarSave(s, key, ex, data)
  }

  /** With the mapping passed positionally, every truthy dict of
      serialisable values saved over a miss with a positive expiry reads
      back, whatever its field names, bytes ones included. */
  lemma IntendedSaveThenLoad(s: State, key: string, ex: int, v: Value)
    requires WellFormed(s) && ex > 0
    requires HashLoad(s, key).Ok? && !Truthy(HashLoad(s, key).value)
    requires Truthy(v) && HashWritable(v)
    ensures var w := IntendedSave(s, key, ex, true, v);
            && w.failure == None && WellFormed(w.state)
            && key in w.state.ttl && w.state.ttl[key] == ex
            && Drop(w.state, key) == Drop(s, key)
            && HashLoad(w.state, key) == Ok(ByteKeyed(v.fields))
  {
    HashSaveThenLoad(s, key, ex, v);
  }

  /** `AsyncSimpleCache` */
  class AsyncSimpleCache {
    const key: string
    const expire: int
    const client: Client
    const json: bool
    const except: bool
    var data: Value
    var update: bool

    constructor (key: string, ex: int, client: Client, isJson: bool, isUpdate: bool, isExcept: bool)
      ensures this.key == key && this.expire == ex && this.client == client
      ensures this.json == isJson && this.update == isUpdate && this.except == isExcept
      ensures this.data == Nil
    {
      this.key := key;
      this.expire := ex;
      this.client := client;
      this.json := isJson;
      this.update := isUpdate;
      this.except := isExcept;
      this.data := Nil;
    }

    method Get() returns (r: Result<Value>)
      ensures r == Load(client.state, key, json)
    {
      if json {
        var f := client.HGetAll(key);
        if f.Err? {
          return Err(f.error);
        }
        if f.value == map[] {
          return Ok(Dict(map[]));
        }
        match DecodeFields(f.value)
        case Ok(m) => r := Ok(ByteKeyed(m));
        case Err(e) => r := Err(e);
      } else {
        var g := client.Get(key);
        if g.Err? {
          return Err(g.error);
        }
        if g.value.None? || !Present(g.value.value) {
          return Ok(Nil);
        }
        r := Loads(g.value.value);
      }
    }

    method Set() returns (r: Result<bool>)
      requires client.Valid()
      modifies client
      ensures client.Valid()
      ensures var w := Save(old(client.state), key, expire, json, data);
              && client.state == w.state
              && client.writes == old(client.writes) + w.issued
              && (r.Err? <==> w.failure.Some?) && (r.Err? ==> r.error == w.failure.value)
    {
      if json {
        if !IsDict(data) {
          return Err(NotADict);
        }
        var enc := EncodeFields(data.fields);
        if enc.Err? {
          return Err(enc.error);
        }
        if data.ByteKeyed? && enc.value != map[] {
          return Err(NonStrKeyword);
        }
        if enc.value == map[] || !KeywordSafe(data.fields) {
          var _ := client.Execute(key, [QExpire(expire)]);
          return Err(if enc.value == map[] then EmptyMapping else ArgumentClash);
        }
        var replies := client.Execute(key, [QHMSet(enc.value), QExpire(expire)]);
        r := if replies.Err? then Err(replies.error) else Ok(true);
      } else {
        var t := Dumps(data);
        if t.Err? {
          return Err(t.error);
        }
        r := client.Set(key, t.value, ExpiryArg(expire));
      }
    }

    /** `__aenter__`: loads the entry; a truthy value needs no write. */
    method AEnter() returns (r: Result<Value>)
      modifies this
      ensures match Load(client.state, key, json)
              case Err(e) => r == Err(e) && data == old(data) && update == old(update)
              case Ok(d) => r == Ok(d) && data == d && update == (old(update) && !Truthy(d))
    {
      r := Get();
      if r.Err? {
        return;
      }
      data := r.value;
      if Truthy(data) {
        update := false;
      }
    }

    /** `__aexit__`: after a write the block's exception is always
        swallowed; without one it is swallowed exactly when `is_except` is
        off. `Ok(b)` says whether it is swallowed. */
    method AExit() returns (r: Result<bool>)
      requires client.Valid()
      modifies client
      ensures client.Valid()
      ensures if update && Truthy(data) then
                var w := Save(old(client.state), key, expire, json, data);
                && client.state == w.state
                && client.writes == old(client.writes) + w.issued
                && r == (if w.failure.Some? then Err(w.failure.value) else Ok(true))
              else client.state == old(client.state) && client.writes == old(client.writes) && r == Ok(!except)
    {
      if update && Truthy(data) {
        var w := Set();
        if w.Err? {
          return Err(w.error);
        }
        return Ok(true);
      }
      r := Ok(!except);
    }
  }

  /** `with_cache` on this proxy's entry. */
  function WithCacheScope(s: State, key: string, ex: int, isJson: bool, isUpdate: bool, block: BlockEffect): Scope {
    CacheScope(s, Load(s, key, isJson), v => Save(s, key, ex, isJson, v), isUpdate, block)
  }

  /** Cache-aside round trip: after a miss, a truthy serialisable value the
      block assigns is written, and a second scope on the key loads it as
      a hit (a dict with its field names as bytes). */
  lemma ScopeMissRoundTrip(s: State, key: string, ex: int, isJson: bool, block: BlockEffect, next: BlockEffect)
    requires WellFormed(s)
    requires Load(s, key, isJson).Ok? && !Truthy(Load(s, key, isJson).value)
    requires block.assign.Some?
    requires var v := block.assign.value; Truthy(v) && Jsonable(v)
    requires var v := block.assign.value; if isJson then v.Dict? && KeywordSafe(v.fields) && ex > 0 else ex >= 0
    ensures var sc := WithCacheScope(s, key, ex, isJson, true, block);
            var again := WithCacheScope(sc.state, key, ex, isJson, true, next);
            && sc.dirty && |sc.issued| == 1
            && sc.outcome == (if block.raises then Err(BlockRaised) else Ok(block.assign.value))
            && WellFormed(sc.state)
            && again.loaded == AsRead(block.assign.value, isJson) && !again.dirty
            && again.state == sc.state && again.issued == []
  {
    var v := block.assign.value;
    SaveThenLoad(s, key, ex, isJson, v);
    var sc := WithCacheScope(s, key, ex, isJson, true, block);
    ScopeHitWritesNothing(sc.state, Load(sc.state, key, isJson), v => Save(sc.state, key, ex, isJson, v), true, next);
  }

  // ---------------------------------------------------------------------
  // Hash helpers

  /** One argument of `HMSET key k1 v1 k2 v2 ...`. */
  datatype Arg = Name(name: string) | Doc(text: Text)

  /** Field names and JSON texts alternate, starting with a name. */
  predicate Alternates(a: seq<Arg>) {
    |a| % 2 == 0 && forall i :: 0 <= i < |a| ==> (a[i].Name? <==> i % 2 == 0)
  }

  /** The mapping an alternating argument list sends; a later pair wins. */
  function PairsOf(a: seq<Arg>): map<string, Text>
    decreases |a|
  {
    if |a| < 2 then map[]
    else
      var rest := PairsOf(a[..|a| - 2]);
      if a[|a| - 2].Name? && a[|a| - 1].Doc? then rest[a[|a| - 2].name := a[|a| - 1].text] else rest
  }

  /** Appending a pair keeps the list alternating and adds the pair to the
      mapping it sends. */
  lemma ExtendPairs(a: seq<Arg>, k: string, t: Text)
    requires Alternates(a)
    ensures Alternates(a + [Name(k), Doc(t)])
    ensures PairsOf(a + [Name(k), Doc(t)]) == PairsOf(a)[k := t]
  {
    var next := a + [Name(k), Doc(t)];
    assert next[..|next| - 2] == a;
    forall i | 0 <= i < |next| ensures next[i].Name? <==> i % 2 == 0 {
      if i < |a| {
        assert next[i] == a[i];
      }
    }
  }

  /** What the loop of `set_json` keeps: the fields not in `rest` are
      encoded into `done`, and the arguments so far send exactly those. */
  ghost predicate Flattening(value: map<string, Value>, rest: set<string>, done: map<string, Text>, args: seq<Arg>) {
    && rest <= value.Keys
    && done.Keys == value.Keys - rest
    && (forall k :: k in done ==> Dumps(value[k]) == Ok(done[k]))
    && |args| == 2 * |done| && Alternates(args) && PairsOf(args) == done
  }

  /** Encoding one more field keeps the loop's invariant. */
  lemma FlattenStep(value: map<string, Value>, rest: set<string>, done: map<string, Text>, args: seq<Arg>, k: string, t: Text)
    requires Flattening(value, rest, done, args) && k in rest && Dumps(value[k]) == Ok(t)
    ensures Flattening(value, rest - {k}, done[k := t], args + [Name(k), Doc(t)])
  {
    ExtendPairs(args, k, t);
    assert k !in done;
  }

  /** Nothing is encoded before the loop starts. */
  lemma FlattenStart(value: map<string, Value>)
    ensures Flattening(value, value.Keys, map[], [])
  {
  }

  /** A field json.dumps refuses makes the whole encoding fail. */
  lemma FlattenFails(value: map<string, Value>, k: string)
    requires k in value && Dumps(value[k]).Err?
    ensures EncodeFields(value).Err? && Dumps(value[k]).error == NotSerializable
  {
  }

  /** Once every field is encoded, the arguments send exactly the fields
      of `EncodeFields`, one pair per field. */
  lemma FlattenDone(value: map<string, Value>, done: map<string, Text>, args: seq<Arg>)
    requires Flattening(value, {}, done, args)
    ensures EncodeFields(value).Ok?
    ensures |args| == 2 * |value| && Alternates(args) && PairsOf(args) == EncodeFields(value).value
  {
    assert forall k :: k in value ==> Jsonable(value[k]);
    var enc := EncodeFields(value).value;
    assert forall k :: k in enc ==> enc[k] == done[k];
    assert enc == done;
    assert |done.Keys| == |value.Keys|;
  }

  /** The `for` loop of `set_json`: `cache_data.extend([k, json.dumps(v)])`
      for each field. It stops at the first value json.dumps refuses. */
  method FlattenFields(value: map<string, Value>) returns (r: Result<seq<Arg>>)
    ensures r.Ok? <==> EncodeFields(value).Ok?
    ensures r.Ok? ==> && |r.value| == 2 * |value|
                      && Alternates(r.value)
                      && PairsOf(r.value) == EncodeFields(value).value
    ensures r.Err? ==> r.error == NotSerializable
  {
    var args: seq<Arg> := [];
    var rest := value.Keys;
    ghost var done: map<string, Text> := map[];
    FlattenStart(value);
    while rest != {}
      invariant Flattening(value, rest, done, args)
      decreases rest
    {
      var k :| k in rest;
      var t := Dumps(value[k]);
      if t.Err? {
        FlattenFails(value, k);
        return Err(t.error);
      }
      FlattenStep(value, rest, done, args, k, t.value);
      args := args + [Name(k), Doc(t.value)];
      done := done[k := t.value];
      rest := rest - {k};
    }
    FlattenDone(value, done, args);
    r := Ok(args);
  }

  /** What `set_json` returns: `True` for an empty dict, the pipeline's
      replies otherwise. */
  datatype Written = Skipped | Replies(replies: seq<Reply>)

  /** `hmget_data`'s decoding: `None` stays `None`, every other reply goes
      through json.loads, and the first refusal raises. */
  function DecodeReplies(rs: seq<Option<Text>>): (r: Result<seq<Value>>)
    ensures r.Ok? <==> forall i :: 0 <= i < |rs| && rs[i].Some? ==> Loads(rs[i].value).Ok?
    ensures r.Ok? ==> |r.value| == |rs|
    ensures r.Ok? ==> forall i :: 0 <= i < |rs| ==> r.value[i] == (if rs[i].None? then Nil else Loads(rs[i].value).value)
    ensures r.Err? ==> r.error == DecodeError
    decreases |rs|
  {
    if rs == [] then Ok([])
    else
      var head := if rs[0].None? then Ok(Nil) else Loads(rs[0].value);
      match head
      case Err(e) => Err(e)
      case Ok(v) =>
        match DecodeReplies(rs[1..])
        case Err(e) => Err(e)
        case Ok(tail) => Ok([v] + tail)
  }

  /** `dict(zip(fields, values))`: `zip` stops at the shorter sequence,
      and every field maps to the value paired with its last occurrence. */
  function Zip(fs: seq<string>, vs: seq<Value>): (r: map<string, Value>)
    ensures |fs| == |vs| ==> r.Keys == set f | f in fs
    decreases |fs| + |vs|
  {
    if fs == [] || vs == [] then map[]
    else if |vs| < |fs| then Zip(fs[..|vs|], vs)
    else if |fs| < |vs| then Zip(fs, vs[..|fs|])
    else Zip(fs[..|fs| - 1], vs[..|vs| - 1])[fs[|fs| - 1] := vs[|vs| - 1]]
  }

  /** Over equally long sequences, the last pair is added last. */
  lemma ZipStep(fs: seq<string>, vs: seq<Value>)
    requires |fs| == |vs| > 0
    ensures Zip(fs, vs) == Zip(fs[..|fs| - 1], vs[..|vs| - 1])[fs[|fs| - 1] := vs[|vs| - 1]]
  {
  }

  /** The last occurrence of a field decides its value. */
  lemma {:induction false} ZipLast(fs: seq<string>, vs: seq<Value>, i: int)
    requires |fs| == |vs| && 0 <= i < |fs|
    requires forall j :: i < j < |fs| ==> fs[j] != fs[i]
    ensures fs[i] in Zip(fs, vs) && Zip(fs, vs)[fs[i]] == vs[i]
    decreases |fs|
  {
    var n := |fs| - 1;
    ZipStep(fs, vs);
    if i < n {
      assert fs[..n][i] == fs[i] && vs[..n][i] == vs[i];
      ZipLast(fs[..n], vs[..n], i);
    }
  }

  /** An argument of the asyncio client's `hmget(key, field, *fields)`. */
  datatype ClientArg = StrArg(s: string) | ListArg(items: seq<string>)

  /** Each field as an argument of its own, as `*fields` passes them. */
  function Strs(fields: seq<string>): seq<ClientArg> {
    seq(|fields|, i requires 0 <= i < |fields| => StrArg(fields[i]))
  }

  /** The client's argument encoder: it sends a str as it is and refuses a
      list. */
  function EncodeArgs(args: seq<ClientArg>): (r: Result<seq<string>>)
    ensures r.Ok? <==> forall i :: 0 <= i < |args| ==> args[i].StrArg?
    ensures r.Ok? ==> |r.value| == |args| && forall i :: 0 <= i < |args| ==> r.value[i] == args[i].s
    ensures r.Err? ==> r.error == Unencodable
    decreases |args|
  {
    if args == [] then Ok([])
    else if args[0].ListArg? then Err(Unencodable)
    else match EncodeArgs(args[1..])
      case Err(e) => Err(e)
      case Ok(rest) => Ok([args[0].s] + rest)
  }

  /** `hmget(key, field, *fields)`: Python demands the key and one field,
      the encoder then checks every argument, and HMGET reads the fields
      after the key. */
  function HMGetCall(s: State, args: seq<ClientArg>): Result<seq<Option<Text>>> {
    if |args| < 2 then Err(MissingArguments)
    else match EncodeArgs(args)
      case Err(e) => Err(e)
      case Ok(ws) => HMGetReply(s, ws[0], ws[1..])
  }

  /** With the fields spread, the call is HMGET on exactly those fields, and
      an empty field list is refused before anything is sent. */
  lemma SpreadCall(s: State, key: string, fields: seq<string>)
    ensures HMGetCall(s, [StrArg(key)] + Strs(fields))
            == if fields == [] then Err(MissingArguments) else HMGetReply(s, key, fields)
  {
    var args := [StrArg(key)] + Strs(fields);
    if fields != [] {
      assert forall i :: 0 <= i < |args| ==> args[i] == if i == 0 then StrArg(key) else StrArg(fields[i - 1]);
      var ws := EncodeArgs(args).value;
      assert ws[0] == key;
      assert ws[1..] == fields;
    }
  }

  /** A call followed by `hmget_data`'s decoding of the replies. */
  function HMGetDecoded(s: State, args: seq<ClientArg>): Result<seq<Value>> {
    match HMGetCall(s, args)
    case Err(e) => Err(e)
    case Ok(rs) => DecodeReplies(rs)
  }

  /** `hmget2dict_data` as written: the field list goes to the client as
      one argument. */
  function HMGet2DictAsWritten(s: State, key: string, fields: seq<string>): Result<map<string, Value>> {
    match HMGetDecoded(s, [StrArg(key), ListArg(fields)])
    case Err(e) => Err(e)
    case Ok(vs) => Ok(Zip(fields, vs))
  }

  /** Whatever the store and the fields, the call as written raises: the
      encoder refuses the list before anything is sent. */
  lemma AsWrittenHMGet2DictRaises(s: State, key: string, fields: seq<string>)
    ensures HMGet2DictAsWritten(s, key, fields) == Err(Unencodable)
  {
    var args := [StrArg(key), ListArg(fields)];
    assert !args[1].StrArg?;
  }

  /** `hmget2dict_data` with the fields spread into HMGET, as `hmget_data`
      does. */
  function HMGet2Dict(s: State, key: string, fields: seq<string>): Result<map<string, Value>> {
    match HMGetDecoded(s, [StrArg(key)] + Strs(fields))
    case Err(e) => Err(e)
    case Ok(vs) => Ok(Zip(fields, vs))
  }

  /** Reading a hash of JSON texts: every requested field maps to its
      decoded value, or to `None` where the field is missing. */
  lemma HMGet2DictReadsBack(s: State, key: string, fields: seq<string>)
    requires fields != [] && key in s.db && s.db[key].Hash?
    requires forall f :: f in s.db[key].fields ==> s.db[key].fields[f].Encoded?
    ensures var r := HMGet2Dict(s, key, fields);
            var m := s.db[key].fields;
            && r.Ok? && r.value.Keys == set f | f in fields
            && forall f :: f in r.value ==> r.value[f] == (if f in m then m[f].doc else Nil)
  {
    SpreadCall(s, key, fields);
    var m := s.db[key].fields;
    var rs := HMGetReply(s, key, fields).value;
    var vs := DecodeReplies(rs).value;
    var z := Zip(fields, vs);
    forall f | f in z ensures z[f] == (if f in m then m[f].doc else Nil) {
      var i :| 0 <= i < |fields| && fields[i] == f;
      LastOccurrence(fields, i);
      var j :| i <= j < |fields| && fields[j] == f && forall l :: j < l < |fields| ==> fields[l] != fields[j];
      ZipLast(fields, vs, j);
    }
  }

  /** A value occurring in a sequence has a last occurrence. */
  lemma {:induction false} LastOccurrence(fs: seq<string>, i: int)
    requires 0 <= i < |fs|
    ensures exists j :: i <= j < |fs| && fs[j] == fs[i] && forall l :: j < l < |fs| ==> fs[l] != fs[j]
    decreases |fs| - i
  {
    if exists l :: i < l < |fs| && fs[l] == fs[i] {
      var l :| i < l < |fs| && fs[l] == fs[i];
      LastOccurrence(fs, l);
    } else {
      ghost var j := i;
      assert i <= j < |fs| && fs[j] == fs[i] && forall l :: j < l < |fs| ==> fs[l] != fs[j];
    }
  }

  // ---------------------------------------------------------------------
  // Sets

  /** SADD of a non-empty list to an absent key or a set leaves exactly the
      old members together with the new ones, each once, and counts the
      members it added. */
  lemma SAddMembers(s: State, k: string, vs: seq<string>)
    requires WellFormed(s) && vs != [] && (k !in s.db || s.db[k].Members?)
    ensures var prior := if k in s.db then s.db[k].elems else [];
            && SAddResult(s, k, vs).Ok?
            && var p := SAddResult(s, k, vs).value;
            && k in p.0.db && p.0.db[k].Members?
            && Distinct(p.0.db[k].elems)
            && (forall x :: x in p.0.db[k].elems <==> x in prior || x in vs)
            && p.1 == |p.0.db[k].elems| - |prior|
            && WellFormed(p.0)
  {
    var prior := if k in s.db then s.db[k].elems else [];
    var grown := AddNew(prior, vs);
    assert vs[0] in grown;
  }

  /** `count = 1 if not count else count` */
  function PopCount(count: Option<int>): (n: int)
    ensures n != 0
    ensures count.None? || count.value == 0 ==> n == 1
    ensures count.Some? && count.value != 0 ==> n == count.value
  {
    if count.None? || count.value == 0 then 1 else count.value
  }

  /** SPOP with a non-negative count on a set returns as many members as it
      can, up to the count; those and the members left make up the old
      set, and none is both popped and left. */
  lemma SPopSplits(s: State, k: string, n: int)
    requires WellFormed(s) && n >= 0 && k in s.db && s.db[k].Members?
    ensures var m := s.db[k].elems;
            && SPopResult(s, k, n).Ok?
            && var p := SPopResult(s, k, n).value;
            var left := if k in p.0.db then p.0.db[k].elems else [];
            && p.1 + left == m
            && |p.1| == (if n < |m| then n else |m|)
            && (forall x :: x in p.1 ==> x !in left)
            && WellFormed(p.0)
  {
    var m := s.db[k].elems;
    var c := if n < |m| then n else |m|;
    assert m[..c] + m[c..] == m;
    ExtractWellFormed(s, k, n);
  }

  // ---------------------------------------------------------------------
  // The proxy

  /** The asyncio `RedisCacheProxy`, over one connection. */
  class RedisCacheProxy {
    const client: Client

    constructor (client: Client)
      ensures this.client == client
    {
      this.client := client;
    }

    /** `with_cache`, with the caller's block given by what it does. */
    method WithCache(key: string, ex: int, isJson: bool, isUpdate: bool, isExcept: bool, block: BlockEffect)
      returns (r: Result<Value>)
      requires client.Valid()
      modifies client
      ensures client.Valid()
      ensures var sc := WithCacheScope(old(client.state), key, ex, isJson, isUpdate, block);
              && client.state == sc.state
              && client.writes == old(client.writes) + sc.issued
              && r == sc.outcome
    {
      var cache := new AsyncSimpleCache(key, ex, client, isJson, isUpdate, isExcept);
      var loaded := cache.Get();
      if loaded.Err? {
        return Err(loaded.error);
      }
      cache.data := loaded.value;
      if Truthy(cache.data) {
        cache.update := false;
      }
      if block.assign.Some? {
        cache.data := block.assign.value;
      }
      if cache.update && Truthy(cache.data) {
        var w := cache.Set();
        if w.Err? {
          return Err(w.error);
        }
      }
      r := if block.raises then Err(BlockRaised) else Ok(cache.data);
    }

    /** `safe_delete`: `EXPIRE key -1`, which removes the key at once and
        is harmless when it is already gone. */
    method SafeDelete(key: string)
      requires client.Valid()
      modifies client
      ensures client.Valid()
      ensures client.state == Drop(old(client.state), key)
      ensures client.writes == old(client.writes) + [ExpireCmd(key, -1)]
    {
      ghost var s := client.state;
      if key !in s.db {
        assert key !in s.ttl;
        assert Drop(s, key) == s;
      }
      var _ := client.Expire(key, -1);
    }

    /** `release_lock`, through `safe_delete`. */
    method ReleaseLock(key: string)
      requires client.Valid()
      modifies client
      ensures client.Valid()
      ensures client.state == Drop(old(client.state), LockKey(key))
      ensures client.writes == old(client.writes) + [ExpireCmd(LockKey(key), -1)]
    {
      SafeDelete(LockKey(key));
    }

    /** `with_lock`: acquire, run the block (which may raise), and release
        in the `finally`. `None` means the acquire loop is still polling:
        with no other client, a lock key that is already set is never
        released, so the loop never ends. */
    method WithLock(key: string, expire: int, fuel: nat, raises: bool) returns (r: Option<Result<bool>>)
      requires client.Valid()
      modifies client
      ensures client.Valid()
      ensures var lk := LockKey(key);
              r.Some? ==> && lk !in client.state.db
                          && Drop(client.state, lk) == Drop(old(client.state), lk)
                          && |client.writes| > |old(client.writes)|
                          && client.writes[|client.writes| - 1] == ExpireCmd(lk, -1)
      ensures r.None? ==> client.state == old(client.state)
      ensures var s := old(client.state);
              fuel > 0 && LockKey(key) !in s.db ==> r == Some(if raises then Err(BlockRaised) else Ok(true))
      ensures fuel > 0 && LockHeld(old(client.state), key).Err?
              ==> r == Some(Err(LockHeld(old(client.state), key).error))
      ensures fuel > 0 && LockHeld(old(client.state), key).Err?
              ==> client.writes == old(client.writes) + [ExpireCmd(LockKey(key), -1)]
      ensures var s := old(client.state);
              fuel == 0 || (LockKey(key) in s.db && LockHeld(s, key).Ok?) ==> r == None
      ensures var lk := LockKey(key);
              fuel > 0 && lk !in old(client.state).db
              ==> client.writes == old(client.writes) + [SetNxCmd(lk, LockMark), ExpireCmd(lk, expire), ExpireCmd(lk, -1)]
    {
      ghost var s := client.state;
      var t := AcquireLock(client, key, expire, fuel);
      if t == Waiting {
        return None;
      }
      if LockKey(key) !in s.db {
        WonLock(s, key, expire);
      }
      ReleaseLock(key);
      if t.Failed? {
        return Some(Err(t.error));
      }
      r := Some(if raises then Err(BlockRaised) else Ok(true));
    }

    /** `get`: the stored text when it is truthy, `None` otherwise. */
    method Get(key: string) returns (r: Result<Option<Text>>)
      ensures GetReply(client.state, key).Err? <==> r.Err?
      ensures r.Ok? && r.value.Some? ==> && key in client.state.db
                                         && client.state.db[key] == Scalar(r.value.value)
                                         && Present(r.value.value)
      ensures r == Ok(None) ==> key !in client.state.db || !Present(client.state.db[key].text)
    {
      var data := client.Get(key);
      if data.Err? {
        return Err(data.error);
      }
      r := if data.value.Some? && Present(data.value.value) then Ok(data.value) else Ok(None);
    }

    /** `set_json`: flattens the dict into `k, json.dumps(v)` pairs; an
        empty dict is answered with `True` and no command; otherwise HMSET
        and, for a truthy `ex`, EXPIRE go out in one pipeline. */
    method SetJson(key: string, value: map<string, Value>, ex: Option<int>) returns (r: Result<Written>)
      requires client.Valid()
      modifies client
      ensures client.Valid()
      ensures EncodeFields(value).Err? ==>
                r == Err(NotSerializable) && client.state == old(client.state) && client.writes == old(client.writes)
      ensures value == map[] ==> r == Ok(Skipped) && client.state == old(client.state) && client.writes == old(client.writes)
      ensures EncodeFields(value).Ok? && value != map[] ==>
                var w := PipelineWrite(old(client.state), key, Expiring(QHMSet(EncodeFields(value).value), ex));
                && client.state == w.state && client.writes == old(client.writes) + w.issued
                && (r.Err? <==> w.failure.Some?) && (r.Err? ==> r.error == w.failure.value)
                && (r.Ok? ==> r.value.Replies?)
    {
      var args := FlattenFields(value);
      if args.Err? {
        return Err(args.error);
      }
      if args.value == [] {
        return Ok(Skipped);
      }
      var replies := client.Execute(key, Expiring(QHMSet(PairsOf(args.value)), ex));
      r := if replies.Err? then Err(replies.error) else Ok(Replies(replies.value));
    }

    /** `hmget_data`: one entry per requested field, in order. */
    method HMGetData(key: string, fields: seq<string>) returns (r: Result<seq<Value>>)
      ensures r == HMGetDecoded(client.state, [StrArg(key)] + Strs(fields))
      ensures fields == [] ==> r == Err(MissingArguments)
      ensures fields != [] && key in client.state.db && !client.state.db[key].Hash? ==> r == Err(WrongType)
      ensures r.Ok? ==> |r.value| == |fields|
      ensures r.Ok? ==> forall i :: 0 <= i < |fields| ==>
                var present := key in client.state.db && fields[i] in client.state.db[key].fields;
                && (!present ==> r.value[i] == Nil)
                && (present ==> Loads(client.state.db[key].fields[fields[i]]) == Ok(r.value[i]))
    {
      SpreadCall(client.state, key, fields);
      if fields == [] {
        return Err(MissingArguments);
      }
      var data := client.HMGet(key, fields);
      if data.Err? {
        return Err(data.error);
      }
      r := DecodeReplies(data.value);
    }

    /** `hmget2dict_data`, with the fields spread into HMGET. */
    method HMGet2DictData(key: string, fields: seq<string>) returns (r: Result<map<string, Value>>)
      ensures r == HMGet2Dict(client.state, key, fields)
    {
      SpreadCall(client.state, key, fields);
      if fields == [] {
        return Err(MissingArguments);
      }
      var data := client.HMGet(key, fields);
      if data.Err? {
        return Err(data.error);
      }
      var values := DecodeReplies(data.value);
      if values.Err? {
        return Err(values.error);
      }
      r := Ok(Zip(fields, values.value));
    }

    /** `sadd`: an empty list is answered with 0 and no command. */
    method SAdd(key: string, values: seq<string>) returns (r: Result<nat>)
      requires client.Valid()
      modifies client
      ensures client.Valid()
      ensures values == [] ==> r == Ok(0) && client.state == old(client.state) && client.writes == old(client.writes)
      ensures values != [] ==>
                && client.writes == old(client.writes) + [SAddCmd(key, values)]
                && match SAddResult(old(client.state), key, values)
                   case Ok(p) => client.state == p.0 && r == Ok(p.1)
                   case Err(e) => client.state == old(client.state) && r == Err(e)
    {
      if values == [] {
        return Ok(0);
      }
      r := client.SAdd(key, values);
    }

    /** `spop`: a falsy count pops one member; an empty reply is `[]`. */
    method SPop(key: string, count: Option<int>) returns (r: Result<seq<string>>)
      requires client.Valid()
      modifies client
      ensures client.Valid()
      ensures client.writes == old(client.writes) + [SPopCmd(key, PopCount(count))]
      ensures match SPopResult(old(client.state), key, PopCount(count))
              case Ok(p) => client.state == p.0 && r == Ok(p.1)
              case Err(e) => client.state == old(client.state) && r == Err(e)
    {
      var n := if count.None? || count.value == 0 then 1 else count.value;
      var values := client.SPop(key, n);
      if values.Err? {
        return Err(values.error);
      }
      r := if values.value != [] then values else Ok([]);
    }
  }
}

/** The key-value store the proxies talk to, reduced to the commands they
    issue. Each command is a pure function on the store's state; the class
    `Client` holds the state and a log of every state-changing command it
    executed, so that callers can say exactly what was written. Expiry is
    recorded as metadata (`ttl`); no clock runs. */
module Store {
  import opened Values

  datatype Entry =
    | Scalar(text: Text)
    | Hash(fields: map<string, Text>)
    | Members(elems: seq<string>)   // a set, in the order its members arrived

  datatype State = State(db: map<string, Entry>, ttl: map<string, int>)

  predicate Distinct(m: seq<string>) {
    forall i, j :: 0 <= i < j < |m| ==> m[i] != m[j]
  }

  /** The store never keeps an empty hash or an empty set. */
  predicate Populated(e: Entry) {
    match e
    case Scalar(_) => true
    case Hash(f) => f != map[]
    case Members(m) => m != [] && Distinct(m)
  }

  predicate WellFormed(s: State) {
    && s.ttl.Keys <= s.db.Keys
    && forall k :: k in s.db ==> Populated(s.db[k])
  }

  function Drop(s: State, k: string): State {
    State(s.db - {k}, s.ttl - {k})
  }

  // ---------------------------------------------------------------------
  // Commands, as functions of the state

  /** GET */
  function GetReply(s: State, k: string): Result<Option<Text>> {
    if k !in s.db then Ok(None)
    else match s.db[k]
      case Scalar(t) => Ok(Some(t))
      case _ => Err(WrongType)
  }

  /** SET k t [EX ex] */
  function SetResult(s: State, k: string, t: Text, ex: Option<int>): Result<State> {
    if ex.Some? && ex.value <= 0 then Err(InvalidExpire)
    else Ok(State(s.db[k := Scalar(t)], if ex.Some? then s.ttl[k := ex.value] else s.ttl - {k}))
  }

  /** SETNX: writes only when the key is absent, and says whether it did. */
  function SetNxResult(s: State, k: string, t: Text): (State, bool) {
    if k in s.db then (s, false) else (State(s.db[k := Scalar(t)], s.ttl - {k}), true)
  }

  /** EXPIRE: a non-positive time removes the key at once. */
  function ExpireResult(s: State, k: string, secs: int): (State, bool) {
    if k !in s.db then (s, false)
    else if secs <= 0 then (Drop(s, k), true)
    else (State(s.db, s.ttl[k := secs]), true)
  }

  /** DEL */
  function DeleteResult(s: State, k: string): (State, nat) {
    if k in s.db then (Drop(s, k), 1) else (s, 0)
  }

  /** HGETALL: an absent key reads as the empty hash. */
  function HGetAllReply(s: State, k: string): Result<map<string, Text>> {
    if k !in s.db then Ok(map[])
    else match s.db[k]
      case Hash(f) => Ok(f)
      case _ => Err(WrongType)
  }

  /** HMGET: one reply per requested field, None where the field is missing. */
  function HMGetReply(s: State, k: string, fs: seq<string>): Result<seq<Option<Text>>> {
    if k !in s.db then Ok(seq(|fs|, _ => None))
    else match s.db[k]
      case Hash(m) => Ok(seq(|fs|, i requires 0 <= i < |fs| => if fs[i] in m then Some(m[fs[i]]) else None))
      case _ => Err(WrongType)
  }

  /** HSET k f t: the count of fields that were new. */
  function HSetResult(s: State, k: string, f: string, t: Text): (r: Result<(State, nat)>)
    ensures WellFormed(s) && r.Ok? ==> WellFormed(r.value.0)
  {
    if k !in s.db then assert f in map[f := t]; Ok((State(s.db[k := Hash(map[f := t])], s.ttl), 1))
    else match s.db[k]
      case Hash(m) => assert f in m[f := t]; Ok((State(s.db[k := Hash(m[f := t])], s.ttl), if f in m then 0 else 1))
      case _ => Err(WrongType)
  }

  /** HMSET k {f: t}: merges the fields into the hash. */
  function HMSetResult(s: State, k: string, fields: map<string, Text>): Result<State> {
    if fields == map[] then Err(EmptyMapping)
    else if k !in s.db then Ok(State(s.db[k := Hash(fields)], s.ttl))
    else match s.db[k]
      case Hash(m) => Ok(State(s.db[k := Hash(m + fields)], s.ttl))
      case _ => Err(WrongType)
  }

  /** The members of `vs` not yet in `m`, appended in order. */
  function AddNew(m: seq<string>, vs: seq<string>): (r: seq<string>)
    ensures |r| >= |m| && r[..|m|] == m
    ensures Distinct(m) ==> Distinct(r)
    ensures forall x :: x in r <==> x in m || x in vs
    decreases vs
  {
    if vs == [] then m
    else if vs[0] in m then AddNew(m, vs[1..])
    else AddNew(m + [vs[0]], vs[1..])
  }

  /** SADD: the count of members that were new. */
  function SAddResult(s: State, k: string, vs: seq<string>): Result<(State, nat)> {
    if vs == [] then Err(MissingArguments)
    else if k !in s.db then
      var r := AddNew([], vs); Ok((State(s.db[k := Members(r)], s.ttl), |r|))
    else match s.db[k]
      case Members(m) =>
        var r := AddNew(m, vs); Ok((State(s.db[k := Members(r)], s.ttl), |r| - |m|))
      case _ => Err(WrongType)
  }

  /** SPOP k n: removes and returns up to n members (the model takes the
      oldest ones; the store picks them at random). */
  function SPopResult(s: State, k: string, n: int): Result<(State, seq<string>)> {
    if n < 0 then Err(OutOfRange)
    else if k !in s.db then Ok((s, []))
    else match s.db[k]
      case Members(m) =>
        var c := if n < |m| then n else |m|;
        if c == |m| then Ok((Drop(s, k), m))
        else Ok((State(s.db[k := Members(m[c..])], s.ttl), m[..c]))
      case _ => Err(WrongType)
  }

  // ---------------------------------------------------------------------
  // Pipelines

  /** A command queued on a pipeline; every pipeline of the proxies works on one key. */
  datatype Queued = QHSet(field: string, text: Text) | QHMSet(fields: map<string, Text>) | QExpire(secs: int)

  datatype Reply = Done | Count(n: int) | Flag(b: bool)

  function RunQueued(s: State, k: string, q: Queued): (r: (State, Result<Reply>))
    ensures WellFormed(s) ==> WellFormed(r.0)
  {
    match q
    case QHSet(f, t) =>
      (match HSetResult(s, k, f, t)
       case Ok(p) => (p.0, Ok(Count(p.1)))
       case Err(e) => (s, Err(e)))
    case QHMSet(fields) =>
      (match HMSetResult(s, k, fields)
       case Ok(s') => (s', Ok(Flag(true)))
       case Err(e) => (s, Err(e)))
    case QExpire(secs) =>
      var p := ExpireResult(s, k, secs); (p.0, Ok(Flag(p.1)))
  }

  /** The queued commands run in order as one batch; a command that fails
      leaves the others in effect. */
  function ExecResult(s: State, k: string, qs: seq<Queued>): (r: (State, seq<Result<Reply>>))
    ensures |r.1| == |qs|
    decreases qs
  {
    if qs == [] then (s, [])
    else
      var p := RunQueued(s, k, qs[0]);
      var rest := ExecResult(p.0, k, qs[1..]);
      (rest.0, [p.1] + rest.1)
  }

  /** What `execute()` gives the caller: the replies, or the first error. */
  function FirstError(rs: seq<Result<Reply>>): Result<seq<Reply>> {
    if rs == [] then Ok([])
    else if rs[0].Err? then Err(rs[0].error)
    else match FirstError(rs[1..])
      case Ok(tail) => Ok([rs[0].value] + tail)
      case Err(e) => Err(e)
  }

  /** The state-changing commands a client issues, as its log records them. */
  datatype Cmd =
    | SetCmd(key: string, text: Text, ex: Option<int>)
    | SetNxCmd(key: string, text: Text)
    | ExpireCmd(key: string, secs: int)
    | DeleteCmd(key: string)
    | SAddCmd(key: string, members: seq<string>)
    | SPopCmd(key: string, count: int)
    | ExecCmd(key: string, queued: seq<Queued>)

  // ---------------------------------------------------------------------
  // The connection

  class Client {
    var state: State
    var writes: seq<Cmd>

    ghost predicate Valid()
      reads this
    {
      WellFormed(state)
    }

    constructor (initial: State)
      requires WellFormed(initial)
      ensures Valid() && state == initial && writes == []
    {
      state := initial;
      writes := [];
    }

    method Get(k: string) returns (r: Result<Option<Text>>)
      ensures r == GetReply(state, k)
    {
      r := GetReply(state, k);
    }

    method HGetAll(k: string) returns (r: Result<map<string, Text>>)
      ensures r == HGetAllReply(state, k)
    {
      r := HGetAllReply(state, k);
    }

    method HMGet(k: string, fs: seq<string>) returns (r: Result<seq<Option<Text>>>)
      ensures r == HMGetReply(state, k, fs)
    {
      r := HMGetReply(state, k, fs);
    }

    method Set(k: string, t: Text, ex: Option<int>) returns (r: Result<bool>)
      requires Valid()
      modifies this
      ensures Valid()
      ensures writes == old(writes) + [SetCmd(k, t, ex)]
      ensures match SetResult(old(state), k, t, ex)
              case Ok(s') => state == s' && r == Ok(true)
              case Err(e) => state == old(state) && r == Err(e)
    {
      writes := writes + [SetCmd(k, t, ex)];
      match SetResult(state, k, t, ex)
      case Ok(s') => state := s'; r := Ok(true);
      case Err(e) => r := Err(e);
    }

    method SetNx(k: string, t: Text) returns (won: bool)
      requires Valid()
      modifies this
      ensures Valid()
      ensures writes == old(writes) + [SetNxCmd(k, t)]
      ensures (state, won) == SetNxResult(old(state), k, t)
    {
      writes := writes + [SetNxCmd(k, t)];
      var p := SetNxResult(state, k, t);
      state, won := p.0, p.1;
    }

    method Expire(k: string, secs: int) returns (existed: bool)
      requires Valid()
      modifies this
      ensures Valid()
      ensures writes == old(writes) + [ExpireCmd(k, secs)]
      ensures (state, existed) == ExpireResult(old(state), k, secs)
    {
      writes := writes + [ExpireCmd(k, secs)];
      var p := ExpireResult(state, k, secs);
      state, existed := p.0, p.1;
    }

    method Delete(k: string) returns (n: nat)
      requires Valid()
      modifies this
      ensures Valid()
      ensures writes == old(writes) + [DeleteCmd(k)]
      ensures (state, n) == DeleteResult(old(state), k)
    {
      writes := writes + [DeleteCmd(k)];
      var p := DeleteResult(state, k);
      state, n := p.0, p.1;
    }

    method SAdd(k: string, vs: seq<string>) returns (r: Result<nat>)
      requires Valid()
      modifies this
      ensures Valid()
      ensures writes == old(writes) + [SAddCmd(k, vs)]
      ensures match SAddResult(old(state), k, vs)
              case Ok(p) => state == p.0 && r == Ok(p.1)
              case Err(e) => state == old(state) && r == Err(e)
    {
      writes := writes + [SAddCmd(k, vs)];
      match SAddResult(state, k, vs)
      case Ok(p) => state := p.0; r := Ok(p.1);
      case Err(e) => r := Err(e);
    }

    method SPop(k: string, n: int) returns (r: Result<seq<string>>)
      requires Valid()
      modifies this
      ensures Valid()
      ensures writes == old(writes) + [SPopCmd(k, n)]
      ensures match SPopResult(old(state), k, n)
              case Ok(p) => state == p.0 && r == Ok(p.1)
              case Err(e) => state == old(state) && r == Err(e)
    {
      writes := writes + [SPopCmd(k, n)];
      match SPopResult(state, k, n)
      case Ok(p) =>
        ExtractWellFormed(state, k, n);
        state := p.0; r := Ok(p.1);
      case Err(e) => r := Err(e);
    }

    /** Runs a pipeline on key `k` as one batch. */
    method Execute(k: string, qs: seq<Queued>) returns (r: Result<seq<Reply>>)
      requires Valid()
      modifies this
      ensures Valid()
      ensures writes == old(writes) + [ExecCmd(k, qs)]
      ensures state == ExecResult(old(state), k, qs).0
      ensures r == FirstError(ExecResult(old(state), k, qs).1)
    {
      writes := writes + [ExecCmd(k, qs)];
      ExecWellFormed(state, k, qs);
      var p := ExecResult(state, k, qs);
      state := p.0;
      r := FirstError(p.1);
    }
  }

  lemma SuffixDistinct(m: seq<string>, c: nat)
    requires Distinct(m) && c <= |m|
    ensures Distinct(m[c..])
  {
    forall i, j | 0 <= i < j < |m[c..]| ensures m[c..][i] != m[c..][j] {
      assert m[c..][i] == m[c + i] && m[c..][j] == m[c + j];
    }
  }

  lemma ExtractWellFormed(s: State, k: string, n: int)
    requires WellFormed(s) && SPopResult(s, k, n).Ok?
    ensures WellFormed(SPopResult(s, k, n).value.0)
  {
    if n >= 0 && k in s.db && s.db[k].Members? {
      var m := s.db[k].elems;
      var c := if n < |m| then n else |m|;
      SuffixDistinct(m, c);
    }
  }

  lemma {:induction false} ExecWellFormed(s: State, k: string, qs: seq<Queued>)
    requires WellFormed(s)
    ensures WellFormed(ExecResult(s, k, qs).0)
    decreases qs
  {
    if qs != [] {
      ExecWellFormed(RunQueued(s, k, qs[0]).0, k, qs[1..]);
    }
  }
}

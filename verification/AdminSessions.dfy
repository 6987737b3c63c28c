// Server-side sessions of the admin pages: the Redis keys, the store's methods over them, and
// what holds of every session in every run.
//
// The clock is a real number of epoch seconds; a key is live iff `now < exp`. The HMAC that
// turns a session id into a key is injective, so ids stand for keys.

module AdminSessionStoreSpec {
  import opened Basics

  type Sid = nat
  type User = string
  type Data = map<string, string>

  datatype Config = Config(maxAge: int, idle: int)

  datatype Entry = Entry(data: Data, created: real, exp: real)
  datatype UserIndex = UserIndex(sids: set<Sid>, exp: real)
  datatype Store = Store(sessions: map<Sid, Entry>, index: map<User, UserIndex>)

  // `data.get("user_id")`, where an empty id counts as none.
  function UserOf(data: Data): Option<User> {
    if "user_id" in data && data["user_id"] != "" then Some(data["user_id"]) else None
  }

  // `int(x)` drops the fraction.
  function Trunc(x: real): int {
    if x >= 0.0 then x.Floor else -((-x).Floor)
  }

  function Ttl(cfg: Config, created: real, now: real): int {
    var left := Trunc(created + cfg.maxAge as real - now);
    if cfg.idle < left then cfg.idle else left
  }

  predicate Live(st: Store, now: real, sid: Sid) {
    sid in st.sessions && now < st.sessions[sid].exp
  }

  // SMEMBERS
  function Members(st: Store, now: real, user: User): set<Sid> {
    if user in st.index && now < st.index[user].exp then st.index[user].sids else {}
  }

  // SADD and EXPIRE in one transaction.
  function Enlist(cfg: Config, now: real, st: Store, user: User, sid: Sid): Store {
    st.(index := st.index[user := UserIndex(Members(st, now, user) + {sid}, now + cfg.maxAge as real)])
  }

  function Delete(st: Store, sid: Sid, user: Option<User>): Store {
    st.(sessions := st.sessions - {sid},
        index := if user.Some? && user.value in st.index
                 then st.index[user.value := st.index[user.value].(sids := st.index[user.value].sids - {sid})]
                 else st.index)
  }

  function Load(cfg: Config, now: real, st: Store, sid: Sid): (Store, Option<Entry>) {
    if !Live(st, now, sid) then (st, None)
    else if Ttl(cfg, st.sessions[sid].created, now) <= 0
    then (Delete(st, sid, UserOf(st.sessions[sid].data)), None)
    else (st, Some(st.sessions[sid]))
  }

  // SET, then the index if somebody is logged in.
  function Write(cfg: Config, now: real, st: Store, sid: Sid, e: Entry): Store {
    var written := st.(sessions := st.sessions[sid := e]);
    match UserOf(e.data)
    case None => written
    case Some(user) => Enlist(cfg, now, written, user, sid)
  }

  function Save(cfg: Config, now: real, st: Store, sid: Sid, data: Data, created: real, create: bool): Store {
    var ttl := Ttl(cfg, created, now);
    if ttl <= 0 then Delete(st, sid, UserOf(data))
    else if !create && !Live(st, now, sid) then st
    else Write(cfg, now, st, sid, Entry(data, created, now + ttl as real))
  }

  function Touch(cfg: Config, now: real, st: Store, sid: Sid, created: real): Store {
    var ttl := Ttl(cfg, created, now);
    if ttl <= 0 then st.(sessions := st.sessions - {sid})
    else if Live(st, now, sid) then st.(sessions := st.sessions[sid := st.sessions[sid].(exp := now + ttl as real)])
    else st
  }

  function RevokeUser(now: real, st: Store, user: User): Store {
    st.(sessions := st.sessions - Members(st, now, user), index := st.index - {user})
  }

  lemma TtlBounds(cfg: Config, created: real, now: real)
    ensures Ttl(cfg, created, now) <= cfg.idle
    ensures Ttl(cfg, created, now) > 0 ==> now + Ttl(cfg, created, now) as real <= created + cfg.maxAge as real
    ensures Ttl(cfg, created, now) > 0 <==> cfg.idle > 0 && created + cfg.maxAge as real - now >= 1.0
  {
  }

  // `load` answers exactly the live sessions with at least a second of their absolute age left,
  // whatever the store has kept.
  lemma LoadIffInAge(cfg: Config, now: real, st: Store, sid: Sid)
    requires cfg.idle > 0
    ensures Load(cfg, now, st, sid).1.Some? <==>
            Live(st, now, sid) && now + 1.0 <= st.sessions[sid].created + cfg.maxAge as real
    ensures Load(cfg, now, st, sid).1.Some? ==> Load(cfg, now, st, sid) == (st, Some(st.sessions[sid]))
    ensures Live(st, now, sid) && Load(cfg, now, st, sid).1.None? ==> sid !in Load(cfg, now, st, sid).0.sessions
  {
    if Live(st, now, sid) {
      TtlBounds(cfg, st.sessions[sid].created, now);
    }
  }
}

// Single Redis commands of concurrent requests, interleaved in any order.
module AdminSessionCommands {
  import opened Basics
  import opened AdminSessionStoreSpec

  // The commands the store sends. The ttl, the data and the members a command carries may have
  // been computed long before it runs.
  datatype Command =
    | SetNew(sid: Sid, data: Data, created: real, ttl: int)        // SET EX
    | SetExisting(sid: Sid, data: Data, created: real, ttl: int)   // SET EX XX
    | AddToIndex(user: User, sid: Sid)                             // MULTI SADD EXPIRE
    | Expire(sid: Sid, ttl: int)
    | DeleteOne(sid: Sid, owner: Option<User>)                     // MULTI DEL SREM
    | DeleteMany(user: User, sids: set<Sid>)                       // DEL index key, session keys

  function Put(st: Store, now: real, c: Command): Store
    requires c.SetNew? || c.SetExisting?
  {
    st.(sessions := st.sessions[c.sid := Entry(c.data, c.created, now + c.ttl as real)])
  }

  function Exec(cfg: Config, now: real, st: Store, c: Command): Store {
    match c
    case SetNew(_, _, _, _) => Put(st, now, c)
    case SetExisting(sid, _, _, _) => if Live(st, now, sid) then Put(st, now, c) else st
    case AddToIndex(user, sid) => Enlist(cfg, now, st, user, sid)
    case Expire(sid, ttl) =>
      if Live(st, now, sid) then st.(sessions := st.sessions[sid := st.sessions[sid].(exp := now + ttl as real)])
          else st
    case DeleteOne(sid, owner) => Delete(st, sid, owner)
    case DeleteMany(user, sids) => st.(sessions := st.sessions - sids, index := st.index - {user})
  }

  type Rid = nat

  // What each request still has to send, and the ids minted so far. A minted id is `born` once
  // its SET has run.
  datatype System = System(now: real, store: Store, pending: map<Rid, seq<Command>>, minted: set<Sid>, born: set<Sid>)

  datatype Action =
    | Tick(t: real)
    | Plan(rid: Rid, commands: seq<Command>, sid: Sid)   // at most one SET, of the id just minted
    | ReadMembers(rid: Rid, user: User)                  // SMEMBERS of a revocation, its DEL still to be sent
    | Send(rid: Rid)
    | Abort(rid: Rid)

  predicate CreatesOnly(commands: seq<Command>, sid: Sid) {
    && (forall i :: 0 <= i < |commands| && commands[i].SetNew? ==> commands[i].sid == sid)
    && (forall i, j :: 0 <= i < j < |commands| ==> !(commands[i].SetNew? && commands[j].SetNew?))
  }

  // A response updates the index only behind its own SET, and deletes many only in a revocation.
  predicate Ordinary(commands: seq<Command>) {
    forall i :: 0 <= i < |commands| ==> !commands[i].DeleteMany? && !commands[i].AddToIndex?
  }

  predicate Enabled(s: System, a: Action) {
    match a
    case Tick(t) => s.now <= t
    case Plan(rid, commands, sid) =>
      rid !in s.pending && sid !in s.minted && CreatesOnly(commands, sid) && Ordinary(commands)
    case ReadMembers(rid, user) => rid !in s.pending
    case Send(rid) => rid in s.pending && s.pending[rid] != []
    case Abort(rid) => rid in s.pending
  }

  // The index command follows a SET only when that SET wrote.
  function Rest(s: System, rid: Rid): seq<Command>
    requires Enabled(s, Send(rid))
  {
    var c := s.pending[rid][0];
    var rest := s.pending[rid][1..];
    if (c.SetNew? || (c.SetExisting? && Live(s.store, s.now, c.sid))) && UserOf(c.data).Some?
    then [AddToIndex(UserOf(c.data).value, c.sid)] + rest
    else rest
  }

  function Next(cfg: Config, s: System, a: Action): System
    requires Enabled(s, a)
  {
    match a
    case Tick(t) => s.(now := t)
    case Plan(rid, commands, sid) => s.(pending := s.pending[rid := commands], minted := s.minted + {sid})
    case ReadMembers(rid, user) =>
      s.(pending := s.pending[rid := [DeleteMany(user, Members(s.store, s.now, user))]])
    case Send(rid) =>
      var c := s.pending[rid][0];
      s.(store := Exec(cfg, s.now, s.store, c),
         pending := s.pending[rid := Rest(s, rid)],
         born := if c.SetNew? then s.born + {c.sid} else s.born)
    case Abort(rid) => s.(pending := s.pending - {rid})
  }

  predicate Runs(cfg: Config, s: System, acts: seq<Action>)
    decreases |acts|
  {
    acts == [] || (Enabled(s, acts[0]) && Runs(cfg, Next(cfg, s, acts[0]), acts[1..]))
  }

  function After(cfg: Config, s: System, acts: seq<Action>): System
    requires Runs(cfg, s, acts)
    decreases |acts|
  {
    if acts == [] then s else After(cfg, Next(cfg, s, acts[0]), acts[1..])
  }

  // A SET still to be sent is the only one for its id, and that id has not been born.
  ghost predicate Inv(s: System) {
    && s.born <= s.minted
    && s.store.sessions.Keys <= s.born
    && (forall r, i | r in s.pending && 0 <= i < |s.pending[r]| && s.pending[r][i].SetNew? ::
          s.pending[r][i].sid in s.minted && s.pending[r][i].sid !in s.born)
    && (forall q, i, r, j | q in s.pending && 0 <= i < |s.pending[q]| && r in s.pending && 0 <= j < |s.pending[r]|
          && s.pending[q][i].SetNew? && s.pending[r][j].SetNew? && s.pending[q][i].sid == s.pending[r][j].sid ::
          q == r && i == j)
  }

  const INITIAL := System(0.0, Store(map[], map[]), map[], {}, {})

  lemma InvNext(cfg: Config, s: System, a: Action)
    requires Inv(s) && Enabled(s, a)
    ensures Inv(Next(cfg, s, a))
  {
    if a.Send? {
      SendKeepsInv(cfg, s, a.rid);
    }
  }

  lemma SendKeepsInv(cfg: Config, s: System, rid: Rid)
    requires Inv(s) && Enabled(s, Send(rid))
    ensures Inv(Next(cfg, s, Send(rid)))
  {
    var t := Next(cfg, s, Send(rid));
    var d := |Rest(s, rid)| - |s.pending[rid]|;
    forall i | 0 <= i < |t.pending[rid]| && t.pending[rid][i].SetNew?
      ensures 1 <= i - d < |s.pending[rid]| && t.pending[rid][i] == s.pending[rid][i - d]
    {
    }
    assert s.pending[rid][0] == s.pending[rid][0];
  }

  // A session id that has died never becomes live again, whatever late commands arrive.
  lemma DeadNext(cfg: Config, s: System, a: Action, sid: Sid)
    requires Inv(s) && Enabled(s, a) && sid in s.born && !Live(s.store, s.now, sid)
    ensures sid in Next(cfg, s, a).born && !Live(Next(cfg, s, a).store, Next(cfg, s, a).now, sid)
  {
  }

  lemma {:induction false} DeadStaysDead(cfg: Config, s: System, acts: seq<Action>, sid: Sid)
    requires Inv(s) && Runs(cfg, s, acts) && sid in s.born && !Live(s.store, s.now, sid)
    ensures Inv(After(cfg, s, acts)) && !Live(After(cfg, s, acts).store, After(cfg, s, acts).now, sid)
    decreases |acts|
  {
    if acts != [] {
      InvNext(cfg, s, acts[0]);
      DeadNext(cfg, s, acts[0], sid);
      DeadStaysDead(cfg, Next(cfg, s, acts[0]), acts[1..], sid);
    }
  }

  lemma {:induction false} InvAfter(cfg: Config, s: System, acts: seq<Action>)
    requires Inv(s) && Runs(cfg, s, acts)
    ensures Inv(After(cfg, s, acts))
    decreases |acts|
  {
    if acts != [] {
      InvNext(cfg, s, acts[0]);
      InvAfter(cfg, Next(cfg, s, acts[0]), acts[1..]);
    }
  }

  // Every session id is live for one interval of any run only.
  lemma OneLife(cfg: Config, before: seq<Action>, between: seq<Action>, after: seq<Action>, sid: Sid)
    requires Runs(cfg, INITIAL, before)
    requires Runs(cfg, After(cfg, INITIAL, before), between)
    requires Runs(cfg, After(cfg, After(cfg, INITIAL, before), between), after)
    ensures
      var s0 := After(cfg, INITIAL, before);
      var s1 := After(cfg, s0, between);
      var s2 := After(cfg, s1, after);
      Live(s0.store, s0.now, sid) && !Live(s1.store, s1.now, sid) ==> !Live(s2.store, s2.now, sid)
  {
    var s0 := After(cfg, INITIAL, before);
    var s1 := After(cfg, s0, between);
    InvAfter(cfg, INITIAL, before);
    InvAfter(cfg, s0, between);
    if Live(s0.store, s0.now, sid) && !Live(s1.store, s1.now, sid) {
      BornForever(cfg, s0, between, sid);
      DeadStaysDead(cfg, s1, after, sid);
    }
  }

  lemma {:induction false} BornForever(cfg: Config, s: System, acts: seq<Action>, sid: Sid)
    requires Runs(cfg, s, acts) && sid in s.born
    ensures sid in After(cfg, s, acts).born
    decreases |acts|
  {
    if acts != [] {
      BornForever(cfg, Next(cfg, s, acts[0]), acts[1..], sid);
    }
  }
}

// Whole store methods as steps: the absolute limit, the idle limit and the user index.
module AdminSessionRuns {
  import opened Basics
  import opened AdminSessionStoreSpec

  // `created` and `used` remember, for each id, when it was created and last written or touched.
  datatype System = System(now: real, store: Store, created: map<Sid, real>, used: map<Sid, real>)

  // Requests pass on the `created_at` they loaded, which is the one the id was created with.
  datatype Action =
    | Tick(t: real)
    | Create(sid: Sid, data: Data, at: real)
    | Update(sid: Sid, data: Data)
    | Touched(sid: Sid)
    | Remove(sid: Sid, owner: Option<User>)
    | Read(sid: Sid)
    | Revoke(user: User)

  predicate Enabled(s: System, a: Action) {
    match a
    case Tick(t) => s.now <= t
    case Create(sid, data, at) => sid !in s.created && at <= s.now
    case Update(sid, data) => sid in s.created
    case Touched(sid) => sid in s.created
    case Remove(sid, owner) => true
    case Read(sid) => true
    case Revoke(user) => true
  }

  function Next(cfg: Config, s: System, a: Action): System
    requires Enabled(s, a)
  {
    match a
    case Tick(t) => s.(now := t)
    case Create(sid, data, at) =>
      s.(store := Save(cfg, s.now, s.store, sid, data, at, true),
         created := s.created[sid := at], used := s.used[sid := s.now])
    case Update(sid, data) =>
      s.(store := Save(cfg, s.now, s.store, sid, data, s.created[sid], false), used := s.used[sid := s.now])
    case Touched(sid) =>
      s.(store := Touch(cfg, s.now, s.store, sid, s.created[sid]), used := s.used[sid := s.now])
    case Remove(sid, owner) => s.(store := Delete(s.store, sid, owner))
    case Read(sid) => s.(store := Load(cfg, s.now, s.store, sid).0)
    case Revoke(user) => s.(store := RevokeUser(s.now, s.store, user))
  }

  predicate Runs(cfg: Config, s: System, acts: seq<Action>)
    decreases |acts|
  {
    acts == [] || (Enabled(s, acts[0]) && Runs(cfg, Next(cfg, s, acts[0]), acts[1..]))
  }

  function After(cfg: Config, s: System, acts: seq<Action>): System
    requires Runs(cfg, s, acts)
    decreases |acts|
  {
    if acts == [] then s else After(cfg, Next(cfg, s, acts[0]), acts[1..])
  }

  const INITIAL := System(0.0, Store(map[], map[]), map[], map[])

  // Neither limit is exceeded, and `created_at` is never rewritten.
  ghost predicate WithinLimits(cfg: Config, s: System, sid: Sid)
    requires sid in s.store.sessions
  {
    var e := s.store.sessions[sid];
    && sid in s.created && e.created == s.created[sid]
    && sid in s.used && s.used[sid] <= s.now
    && e.exp <= e.created + cfg.maxAge as real
    && e.exp <= s.used[sid] + cfg.idle as real
  }

  // A live logged-in session is in its user's index, and the index outlives the session's
  // absolute limit.
  ghost predicate Indexed(cfg: Config, now: real, st: Store, sid: Sid) {
    Live(st, now, sid) && UserOf(st.sessions[sid].data).Some? ==>
      var user := UserOf(st.sessions[sid].data).value;
      sid in Members(st, now, user) && st.sessions[sid].created + cfg.maxAge as real <= st.index[user].exp
  }

  ghost predicate AllIndexed(cfg: Config, now: real, st: Store) {
    && (forall sid :: sid in st.sessions ==> Indexed(cfg, now, st, sid))
    && (forall user :: user in st.index ==> st.index[user].exp <= now + cfg.maxAge as real)
    && (forall sid :: sid in st.sessions ==>
          st.sessions[sid].created <= now && st.sessions[sid].exp <= st.sessions[sid].created + cfg.maxAge as real)
  }

  ghost predicate Inv(cfg: Config, s: System) {
    && (forall sid :: sid in s.created ==> s.created[sid] <= s.now)
    && (forall sid :: sid in s.store.sessions ==> WithinLimits(cfg, s, sid))
    && AllIndexed(cfg, s.now, s.store)
  }

  lemma LimitsNext(cfg: Config, s: System, a: Action)
    requires Inv(cfg, s) && Enabled(s, a)
    ensures forall sid :: sid in Next(cfg, s, a).store.sessions ==> WithinLimits(cfg, Next(cfg, s, a), sid)
  {
    var t := Next(cfg, s, a);
    forall sid | sid in t.store.sessions ensures WithinLimits(cfg, t, sid) {
      TtlBounds(cfg, t.store.sessions[sid].created, s.now);
      if sid in s.store.sessions {
        assert WithinLimits(cfg, s, sid);
      }
    }
  }

  lemma EnlistKeepsIndex(cfg: Config, now: real, st: Store, user: User, sid: Sid)
    requires sid in st.sessions && UserOf(st.sessions[sid].data) == Some(user)
    requires forall s :: s in st.sessions && s != sid ==> Indexed(cfg, now, st, s)
    requires forall u :: u in st.index ==> st.index[u].exp <= now + cfg.maxAge as real
    requires forall s :: s in st.sessions ==>
               st.sessions[s].created <= now && st.sessions[s].exp <= st.sessions[s].created + cfg.maxAge as real
    ensures AllIndexed(cfg, now, Enlist(cfg, now, st, user, sid))
  {
    var t := Enlist(cfg, now, st, user, sid);
    forall s | s in t.sessions ensures Indexed(cfg, now, t, s) {
      if s != sid {
        assert Indexed(cfg, now, st, s);
      }
    }
  }

  lemma WriteKeepsIndex(cfg: Config, now: real, st: Store, sid: Sid, e: Entry)
    requires AllIndexed(cfg, now, st) && e.created <= now && e.exp <= e.created + cfg.maxAge as real
    ensures AllIndexed(cfg, now, Write(cfg, now, st, sid, e))
  {
    var written := st.(sessions := st.sessions[sid := e]);
    forall s | s in written.sessions && s != sid ensures Indexed(cfg, now, written, s) {
      assert Indexed(cfg, now, st, s);
    }
    if UserOf(e.data).Some? {
      EnlistKeepsIndex(cfg, now, written, UserOf(e.data).value, sid);
    }
  }

  lemma DeleteKeepsIndex(cfg: Config, now: real, st: Store, sid: Sid, owner: Option<User>)
    requires AllIndexed(cfg, now, st)
    ensures AllIndexed(cfg, now, Delete(st, sid, owner))
  {
    var t := Delete(st, sid, owner);
    forall s | s in t.sessions ensures Indexed(cfg, now, t, s) {
      assert Indexed(cfg, now, st, s);
    }
  }

  lemma SaveKeepsIndex(cfg: Config, now: real, st: Store, sid: Sid, data: Data, created: real, create: bool)
    requires AllIndexed(cfg, now, st) && created <= now
    ensures AllIndexed(cfg, now, Save(cfg, now, st, sid, data, created, create))
  {
    var ttl := Ttl(cfg, created, now);
    if ttl <= 0 {
      DeleteKeepsIndex(cfg, now, st, sid, UserOf(data));
      assert Save(cfg, now, st, sid, data, created, create) == Delete(st, sid, UserOf(data));
    } else if create || Live(st, now, sid) {
      var e := Entry(data, created, now + ttl as real);
      assert e.exp <= created + cfg.maxAge as real by {
        TtlBounds(cfg, created, now);
      }
      WriteKeepsIndex(cfg, now, st, sid, e);
      assert Save(cfg, now, st, sid, data, created, create) == Write(cfg, now, st, sid, e);
    } else {
      assert Save(cfg, now, st, sid, data, created, create) == st;
    }
  }

  lemma TouchKeepsIndex(cfg: Config, now: real, st: Store, sid: Sid, created: real)
    requires AllIndexed(cfg, now, st) && (sid in st.sessions ==> created == st.sessions[sid].created)
    ensures AllIndexed(cfg, now, Touch(cfg, now, st, sid, created))
  {
    TtlBounds(cfg, created, now);
    var t := Touch(cfg, now, st, sid, created);
    forall s | s in t.sessions ensures Indexed(cfg, now, t, s) {
      assert Indexed(cfg, now, st, s);
    }
  }

  lemma RevokeKeepsIndex(cfg: Config, now: real, st: Store, user: User)
    requires AllIndexed(cfg, now, st)
    ensures AllIndexed(cfg, now, RevokeUser(now, st, user))
  {
    var t := RevokeUser(now, st, user);
    forall s | s in t.sessions ensures Indexed(cfg, now, t, s) {
      assert Indexed(cfg, now, st, s);
    }
  }

  lemma IndexedNext(cfg: Config, s: System, a: Action)
    requires Inv(cfg, s) && Enabled(s, a)
    ensures AllIndexed(cfg, Next(cfg, s, a).now, Next(cfg, s, a).store)
  {
    match a
    case Tick(t) =>
      forall sid | sid in s.store.sessions ensures Indexed(cfg, t, s.store, sid) {
        assert Indexed(cfg, s.now, s.store, sid);
      }
    case Create(sid, data, at) => SaveKeepsIndex(cfg, s.now, s.store, sid, data, at, true);
    case Update(sid, data) => SaveKeepsIndex(cfg, s.now, s.store, sid, data, s.created[sid], false);
    case Touched(sid) =>
      if sid in s.store.sessions { assert WithinLimits(cfg, s, sid); }
      TouchKeepsIndex(cfg, s.now, s.store, sid, s.created[sid]);
    case Remove(sid, owner) => DeleteKeepsIndex(cfg, s.now, s.store, sid, owner);
    case Read(sid) =>
      if Live(s.store, s.now, sid) {
        DeleteKeepsIndex(cfg, s.now, s.store, sid, UserOf(s.store.sessions[sid].data));
      }
    case Revoke(user) => RevokeKeepsIndex(cfg, s.now, s.store, user);
  }

  lemma InvNext(cfg: Config, s: System, a: Action)
    requires Inv(cfg, s) && Enabled(s, a)
    ensures Inv(cfg, Next(cfg, s, a))
  {
    LimitsNext(cfg, s, a);
    IndexedNext(cfg, s, a);
  }

  lemma {:induction false} InvAfter(cfg: Config, s: System, acts: seq<Action>)
    requires Inv(cfg, s) && Runs(cfg, s, acts)
    ensures Inv(cfg, After(cfg, s, acts))
    decreases |acts|
  {
    if acts != [] {
      InvNext(cfg, s, acts[0]);
      InvAfter(cfg, Next(cfg, s, acts[0]), acts[1..]);
    }
  }

  // In every reachable state.
  lemma SessionsKeepTheirLimits(cfg: Config, acts: seq<Action>, sid: Sid)
    requires Runs(cfg, INITIAL, acts) && sid in After(cfg, INITIAL, acts).store.sessions
    ensures WithinLimits(cfg, After(cfg, INITIAL, acts), sid)
    ensures Indexed(cfg, After(cfg, INITIAL, acts).now, After(cfg, INITIAL, acts).store, sid)
  {
    InvAfter(cfg, INITIAL, acts);
  }

  // After `revoke_user` no live session belongs to the user; the sessions of others are as before.
  lemma RevokeLeavesNone(cfg: Config, acts: seq<Action>, user: User, sid: Sid)
    requires Runs(cfg, INITIAL, acts)
    ensures
      var s := After(cfg, INITIAL, acts);
      var t := Next(cfg, s, Revoke(user));
      && (Live(t.store, t.now, sid) ==>
            && Live(s.store, s.now, sid) && t.store.sessions[sid] == s.store.sessions[sid]
            && var data := t.store.sessions[sid].data;
               !(user != "" && "user_id" in data && data["user_id"] == user))
  {
    InvAfter(cfg, INITIAL, acts);
    var s := After(cfg, INITIAL, acts);
    if sid in s.store.sessions {
      assert Indexed(cfg, s.now, s.store, sid);
    }
  }
}

// The middleware: cookies and the store together behave like one dictionary per browser.
module AdminSessionBrowsers {
  import opened Basics
  import opened AdminSessionStoreSpec

  type Browser = nat

  datatype CookieChange = Keep | Clear | SetTo(sid: Sid)

  // `_commit`
  function Commit(cfg: Config, now: real, st: Store, sid: Option<Sid>, record: Option<Entry>,
                  session: Data, rotate: bool, newSid: Sid): (Store, CookieChange)
    requires record.Some? ==> sid.Some?
  {
    var cleared := if record.Some? then Delete(st, sid.value, UserOf(record.value.data)) else st;
    if session == map[] then
      (cleared, if sid.Some? then Clear else Keep)
    else if record.None? || rotate then
      (Save(cfg, now, cleared, newSid, session, now, true), SetTo(newSid))
    else if session != record.value.data then
      (Save(cfg, now, st, sid.value, session, record.value.created, false), Keep)
    else
      (Touch(cfg, now, st, sid.value, record.value.created), Keep)
  }

  datatype World = World(now: real, store: Store, cookies: map<Browser, Sid>, minted: set<Sid>)

  // A visit leaves `session` behind; `newSid` is the id to mint should one be needed.
  datatype Event =
    | Wait(t: real)
    | Visit(browser: Browser, session: Data, rotate: bool, newSid: Sid)
    | Revoke(user: User)

  predicate Possible(w: World, e: Event) {
    match e
    case Wait(t) => w.now <= t
    case Visit(_, _, _, newSid) => newSid !in w.minted
    case Revoke(_) => true
  }

  function CookieOf(w: World, b: Browser): Option<Sid> {
    if b in w.cookies then Some(w.cookies[b]) else None
  }

  // What the next request of the browser finds, and whether its cookie still loads.
  function Loaded(cfg: Config, w: World, b: Browser): Option<Entry> {
    if b in w.cookies then Load(cfg, w.now, w.store, w.cookies[b]).1 else None
  }

  function Seen(cfg: Config, w: World, b: Browser): Data {
    var record := Loaded(cfg, w, b);
    if record.Some? then record.value.data else map[]
  }

  function Step(cfg: Config, w: World, e: Event): World
    requires Possible(w, e)
  {
    match e
    case Wait(t) => w.(now := t)
    case Revoke(user) => w.(store := RevokeUser(w.now, w.store, user))
    case Visit(b, session, rotate, newSid) =>
      var st := if b in w.cookies then Load(cfg, w.now, w.store, w.cookies[b]).0 else w.store;
      var (st', change) := Commit(cfg, w.now, st, CookieOf(w, b), Loaded(cfg, w, b), session, rotate, newSid);
      w.(store := st',
         cookies := match change
                    case Keep => w.cookies
                    case Clear => w.cookies - {b}
                    case SetTo(sid) => w.cookies[b := sid],
         minted := w.minted + {newSid})
  }

  // No two browsers share a cookie, and every id in use was minted.
  ghost predicate Separate(w: World) {
    && (forall b :: b in w.cookies ==> w.cookies[b] in w.minted)
    && (forall a, b :: a in w.cookies && b in w.cookies && w.cookies[a] == w.cookies[b] ==> a == b)
    && w.store.sessions.Keys <= w.minted
  }

  // config.py demands 0 < idle <= max_age.
  predicate Sensible(cfg: Config) {
    0 < cfg.idle <= cfg.maxAge
  }

  lemma FreshSessionLoads(cfg: Config, created: real, now: real)
    requires Sensible(cfg) && created == now
    ensures Ttl(cfg, created, now) > 0
  {
  }

  // Ids other than the browser's own and the new one keep their entry.
  lemma VisitTouchesOwnIds(cfg: Config, w: World, e: Event, sid: Sid)
    requires e.Visit? && Possible(w, e)
    requires sid != e.newSid && (e.browser in w.cookies ==> sid != w.cookies[e.browser])
    ensures sid in Step(cfg, w, e).store.sessions <==> sid in w.store.sessions
    ensures sid in w.store.sessions ==> Step(cfg, w, e).store.sessions[sid] == w.store.sessions[sid]
  {
  }

  lemma VisitKeepsSeparate(cfg: Config, w: World, e: Event)
    requires Separate(w) && e.Visit? && Possible(w, e)
    ensures Separate(Step(cfg, w, e))
  {
    var t := Step(cfg, w, e);
    forall sid | sid in t.store.sessions ensures sid in t.minted {
      if sid != e.newSid && (e.browser in w.cookies ==> sid != w.cookies[e.browser]) {
        VisitTouchesOwnIds(cfg, w, e, sid);
      }
    }
  }

  lemma VisitLeavesSession(cfg: Config, w: World, e: Event)
    requires Sensible(cfg) && Separate(w) && e.Visit? && Possible(w, e)
    ensures Seen(cfg, Step(cfg, w, e), e.browser) == e.session
  {
    FreshSessionLoads(cfg, w.now, w.now);
    if Loaded(cfg, w, e.browser).Some? {
      LoadIffInAge(cfg, w.now, w.store, w.cookies[e.browser]);
    }
  }

  // One visit: the browser's next request finds exactly what this one left, and no other
  // browser's session is touched.
  lemma VisitRefinesDictionary(cfg: Config, w: World, e: Event, other: Browser)
    requires Sensible(cfg) && Separate(w) && e.Visit? && Possible(w, e)
    ensures Separate(Step(cfg, w, e))
    ensures Seen(cfg, Step(cfg, w, e), e.browser) == e.session
    ensures other != e.browser ==>
              CookieOf(Step(cfg, w, e), other) == CookieOf(w, other)
              && Loaded(cfg, Step(cfg, w, e), other) == Loaded(cfg, w, other)
  {
    VisitKeepsSeparate(cfg, w, e);
    VisitLeavesSession(cfg, w, e);
    if other != e.browser && other in w.cookies {
      VisitTouchesOwnIds(cfg, w, e, w.cookies[other]);
    }
  }

  // Leaving nothing behind removes key and cookie; a rotation leaves exactly one live id.
  lemma EmptyAndRotation(cfg: Config, w: World, e: Event)
    requires Sensible(cfg) && Separate(w) && e.Visit? && Possible(w, e)
    ensures
      var t := Step(cfg, w, e);
      && (e.session == map[] ==> e.browser !in t.cookies)
      && (e.session == map[] && e.browser in w.cookies && Live(w.store, w.now, w.cookies[e.browser]) ==>
            w.cookies[e.browser] !in t.store.sessions)
      && (e.session != map[] ==> e.browser in t.cookies && Live(t.store, t.now, t.cookies[e.browser]))
      && (e.session != map[] && e.rotate ==> t.cookies[e.browser] == e.newSid)
      && (e.session != map[] && e.rotate && e.browser in w.cookies ==> !Live(t.store, t.now, w.cookies[e.browser]))
  {
    FreshSessionLoads(cfg, w.now, w.now);
    if e.browser in w.cookies {
      LoadIffInAge(cfg, w.now, w.store, w.cookies[e.browser]);
    }
  }

  // ---------------------------------------------------------------------------------------
  // Whole runs against the dictionary
  // ---------------------------------------------------------------------------------------

  // What a server that kept everything in one dictionary would hold of a browser: the session, when
  // its id was made, when it was last used, and the users it was ever saved for.
  datatype Memory = Memory(data: Data, created: real, used: real, users: set<User>)

  datatype Notebook = Notebook(now: real, pages: map<Browser, Memory>)

  const BLANK := Notebook(0.0, map[])

  // Used within the idle limit, and with a second of the absolute limit left.
  predicate Remembered(cfg: Config, n: Notebook, b: Browser) {
    && b in n.pages
    && n.now < n.pages[b].used + cfg.idle as real
    && n.now + 1.0 <= n.pages[b].created + cfg.maxAge as real
  }

  function Recall(cfg: Config, n: Notebook, b: Browser): Data {
    if Remembered(cfg, n, b) then n.pages[b].data else map[]
  }

  function Users(data: Data): set<User> {
    if UserOf(data).Some? then {UserOf(data).value} else {}
  }

  function Written(cfg: Config, n: Notebook, b: Browser, session: Data, rotate: bool): Memory {
    if Remembered(cfg, n, b) && !rotate
    then Memory(session, n.pages[b].created, n.now, n.pages[b].users + Users(session))
    else Memory(session, n.now, n.now, Users(session))
  }

  function Remember(cfg: Config, n: Notebook, e: Event): Notebook {
    match e
    case Wait(t) => n.(now := t)
    case Visit(b, session, rotate, _) =>
      n.(pages := if session == map[] then n.pages - {b} else n.pages[b := Written(cfg, n, b, session, rotate)])
    case Revoke(user) => n.(pages := map b | b in n.pages && user !in n.pages[b].users :: n.pages[b])
  }

  predicate Runs(cfg: Config, w: World, events: seq<Event>)
    decreases |events|
  {
    events == [] || (Possible(w, events[0]) && Runs(cfg, Step(cfg, w, events[0]), events[1..]))
  }

  function After(cfg: Config, w: World, events: seq<Event>): World
    requires Runs(cfg, w, events)
    decreases |events|
  {
    if events == [] then w else After(cfg, Step(cfg, w, events[0]), events[1..])
  }

  function Kept(cfg: Config, n: Notebook, events: seq<Event>): Notebook
    decreases |events|
  {
    if events == [] then n else Kept(cfg, Remember(cfg, n, events[0]), events[1..])
  }

  // The users under whose index the id is listed are `users`, and these indexes outlive the id.
  ghost predicate ListedFor(cfg: Config, st: Store, sid: Sid, created: real, users: set<User>) {
    && (forall u :: u in users ==>
          u in st.index && sid in st.index[u].sids && created + cfg.maxAge as real <= st.index[u].exp)
    && (forall u :: u in st.index && sid in st.index[u].sids ==> u in users)
  }

  // The cookie's key holds the page, and expires exactly by the two limits.
  ghost predicate Holds(cfg: Config, w: World, b: Browser, m: Memory) {
    && b in w.cookies && w.cookies[b] in w.store.sessions
    && m.created <= m.used <= w.now && Users(m.data) <= m.users
    && w.store.sessions[w.cookies[b]] == Entry(m.data, m.created, m.used + Ttl(cfg, m.created, m.used) as real)
    && ListedFor(cfg, w.store, w.cookies[b], m.created, m.users)
  }

  ghost predicate IndexMinted(w: World) {
    forall u :: u in w.store.index ==> w.store.index[u].sids <= w.minted
  }

  ghost predicate PageAgrees(cfg: Config, w: World, n: Notebook, b: Browser) {
    if Remembered(cfg, n, b) then Holds(cfg, w, b, n.pages[b]) else Loaded(cfg, w, b).None?
  }

  ghost predicate Agree(cfg: Config, w: World, n: Notebook) {
    && Separate(w) && IndexMinted(w) && n.now == w.now
    && forall b :: PageAgrees(cfg, w, n, b)
  }

  // A key with that expiry loads exactly as long as the two limits say.
  lemma HeldIsLoaded(cfg: Config, w: World, b: Browser, m: Memory)
    requires Sensible(cfg) && Holds(cfg, w, b, m)
    ensures Loaded(cfg, w, b).Some? <==>
            w.now < m.used + cfg.idle as real && w.now + 1.0 <= m.created + cfg.maxAge as real
    ensures Loaded(cfg, w, b).Some? ==> Loaded(cfg, w, b).value == w.store.sessions[w.cookies[b]]
  {
    LoadIffInAge(cfg, w.now, w.store, w.cookies[b]);
  }

  lemma SeenIsRecalled(cfg: Config, w: World, n: Notebook, b: Browser)
    requires Sensible(cfg) && n.now == w.now && PageAgrees(cfg, w, n, b)
    ensures Seen(cfg, w, b) == Recall(cfg, n, b)
    ensures Loaded(cfg, w, b).Some? <==> Remembered(cfg, n, b)
  {
    if Remembered(cfg, n, b) {
      HeldIsLoaded(cfg, w, b, n.pages[b]);
    }
  }

  lemma WaitAgrees(cfg: Config, w: World, t: real, n: Notebook, b: Browser)
    requires Sensible(cfg) && n.now == w.now <= t && PageAgrees(cfg, w, n, b)
    ensures PageAgrees(cfg, w.(now := t), n.(now := t), b)
  {
    if Remembered(cfg, n, b) {
      HeldIsLoaded(cfg, w.(now := t), b, n.pages[b]);
    } else if b in w.cookies {
      LoadIffInAge(cfg, w.now, w.store, w.cookies[b]);
      LoadIffInAge(cfg, t, w.store, w.cookies[b]);
    }
  }

  lemma RevokeAgrees(cfg: Config, w: World, user: User, n: Notebook, b: Browser)
    requires Sensible(cfg) && n.now == w.now && PageAgrees(cfg, w, n, b)
    ensures PageAgrees(cfg, Step(cfg, w, Revoke(user)), Remember(cfg, n, Revoke(user)), b)
  {
    if !Remembered(cfg, n, b) && b in w.cookies {
      LoadIffInAge(cfg, w.now, w.store, w.cookies[b]);
      LoadIffInAge(cfg, w.now, RevokeUser(w.now, w.store, user), w.cookies[b]);
    }
  }

  lemma EnlistKeepsListing(cfg: Config, now: real, st: Store, user: User, sid: Sid, other: Sid, created: real,
      users: set<User>)
    requires other != sid && ListedFor(cfg, st, other, created, users) && created <= now < created + cfg.maxAge as real
    ensures ListedFor(cfg, Enlist(cfg, now, st, user, sid), other, created, users)
  {
  }

  lemma DeleteKeepsListing(cfg: Config, st: Store, sid: Sid, owner: Option<User>, other: Sid, created: real,
      users: set<User>)
    requires other != sid && ListedFor(cfg, st, other, created, users)
    ensures ListedFor(cfg, Delete(st, sid, owner), other, created, users)
  {
  }

  lemma SaveKeepsListing(cfg: Config, now: real, st: Store, sid: Sid, data: Data, at: real, create: bool,
                         other: Sid, created: real, users: set<User>)
    requires other != sid && ListedFor(cfg, st, other, created, users) && created <= now < created + cfg.maxAge as real
    ensures ListedFor(cfg, Save(cfg, now, st, sid, data, at, create), other, created, users)
  {
    if Ttl(cfg, at, now) <= 0 {
      DeleteKeepsListing(cfg, st, sid, UserOf(data), other, created, users);
    } else if UserOf(data).Some? {
      var written := st.(sessions := st.sessions[sid := Entry(data, at, now + Ttl(cfg, at, now) as real)]);
      EnlistKeepsListing(cfg, now, written, UserOf(data).value, sid, other, created, users);
    }
  }

  lemma VisitKeepsListing(cfg: Config, w: World, e: Event, other: Sid, created: real, users: set<User>)
    requires e.Visit? && Possible(w, e) && other != e.newSid
            && (e.browser in w.cookies ==> other != w.cookies[e.browser])
    requires ListedFor(cfg, w.store, other, created, users) && created <= w.now < created + cfg.maxAge as real
    ensures ListedFor(cfg, Step(cfg, w, e).store, other, created, users)
  {
    var st, record := w.store, Loaded(cfg, w, e.browser);
    if e.browser in w.cookies {
      var sid := w.cookies[e.browser];
      st := Load(cfg, w.now, w.store, sid).0;
      if st != w.store {
        DeleteKeepsListing(cfg, w.store, sid, UserOf(w.store.sessions[sid].data), other, created, users);
      }
    }
    if e.session == map[] || record.None? || e.rotate {
      var cleared := st;
      if record.Some? {
        cleared := Delete(st, w.cookies[e.browser], UserOf(record.value.data));
        DeleteKeepsListing(cfg, st, w.cookies[e.browser], UserOf(record.value.data), other, created, users);
      }
      SaveKeepsListing(cfg, w.now, cleared, e.newSid, e.session, w.now, true, other, created, users);
    } else {
      SaveKeepsListing(cfg, w.now, st, w.cookies[e.browser], e.session, record.value.created, false, other, created,
          users);
    }
  }

  lemma VisitAgreesOther(cfg: Config, w: World, e: Event, n: Notebook, b: Browser)
    requires Sensible(cfg) && Agree(cfg, w, n) && e.Visit? && Possible(w, e) && b != e.browser
    ensures PageAgrees(cfg, Step(cfg, w, e), Remember(cfg, n, e), b)
  {
    VisitRefinesDictionary(cfg, w, e, b);
    assert PageAgrees(cfg, w, n, b);
    if Remembered(cfg, n, b) {
      var m := n.pages[b];
      VisitTouchesOwnIds(cfg, w, e, w.cookies[b]);
      VisitKeepsListing(cfg, w, e, w.cookies[b], m.created, m.users);
    }
  }

  // A session under a new id: listed for its own user alone.
  lemma CreatedIsListed(cfg: Config, now: real, st: Store, sid: Sid, data: Data)
    requires Sensible(cfg) && forall u :: u in st.index ==> sid !in st.index[u].sids
    ensures
      var t := Save(cfg, now, st, sid, data, now, true);
      && sid in t.sessions && t.sessions[sid] == Entry(data, now, now + Ttl(cfg, now, now) as real)
      && ListedFor(cfg, t, sid, now, Users(data))
  {
    FreshSessionLoads(cfg, now, now);
  }

  // A session that is saved or touched under its id stays listed, and is listed for its user.
  lemma SavedIsListed(cfg: Config, now: real, st: Store, sid: Sid, data: Data, created: real, users: set<User>)
    requires Live(st, now, sid) && ListedFor(cfg, st, sid, created, users)
    requires created <= now < created + cfg.maxAge as real && Ttl(cfg, created, now) > 0
    ensures
      var t := Save(cfg, now, st, sid, data, created, false);
      && sid in t.sessions && t.sessions[sid] == Entry(data, created, now + Ttl(cfg, created, now) as real)
      && ListedFor(cfg, t, sid, created, users + Users(data))
  {
  }

  lemma NewIdIsUnlisted(cfg: Config, w: World, e: Event, st: Store)
    requires IndexMinted(w) && e.Visit? && Possible(w, e)
    requires forall u :: u in st.index ==> u in w.store.index && st.index[u].sids <= w.store.index[u].sids
    ensures forall u :: u in st.index ==> e.newSid !in st.index[u].sids
  {
  }

  lemma VisitAgreesOwn(cfg: Config, w: World, e: Event, n: Notebook)
    requires Sensible(cfg) && Agree(cfg, w, n) && e.Visit? && Possible(w, e)
    ensures PageAgrees(cfg, Step(cfg, w, e), Remember(cfg, n, e), e.browser)
  {
    var b, record := e.browser, Loaded(cfg, w, e.browser);
    assert PageAgrees(cfg, w, n, b);
    SeenIsRecalled(cfg, w, n, b);
    if e.session != map[] {
      if record.None? || e.rotate {
        NewSessionAgrees(cfg, w, e, n);
      } else {
        SameSessionAgrees(cfg, w, e, n);
      }
    } else {
      VisitLeavesSession(cfg, w, e);
    }
  }

  lemma NewSessionAgrees(cfg: Config, w: World, e: Event, n: Notebook)
    requires Sensible(cfg) && Agree(cfg, w, n) && e.Visit? && Possible(w, e) && e.session != map[]
    requires Loaded(cfg, w, e.browser).None? || e.rotate
    requires Loaded(cfg, w, e.browser).Some? <==> Remembered(cfg, n, e.browser)
    ensures PageAgrees(cfg, Step(cfg, w, e), Remember(cfg, n, e), e.browser)
  {
    var st, record := w.store, Loaded(cfg, w, e.browser);
    if e.browser in w.cookies {
      st := Load(cfg, w.now, w.store, w.cookies[e.browser]).0;
    }
    var cleared := if record.Some? then Delete(st, w.cookies[e.browser], UserOf(record.value.data)) else st;
    NewIdIsUnlisted(cfg, w, e, cleared);
    CreatedIsListed(cfg, w.now, cleared, e.newSid, e.session);
    var t := Step(cfg, w, e);
    assert t.store == Save(cfg, w.now, cleared, e.newSid, e.session, w.now, true) && t.cookies[e.browser] == e.newSid;
  }

  lemma SameSessionAgrees(cfg: Config, w: World, e: Event, n: Notebook)
    requires Sensible(cfg) && Agree(cfg, w, n) && e.Visit? && Possible(w, e) && e.session != map[] && !e.rotate
    requires Loaded(cfg, w, e.browser).Some? && Remembered(cfg, n, e.browser)
    ensures PageAgrees(cfg, Step(cfg, w, e), Remember(cfg, n, e), e.browser)
  {
    var m, sid := n.pages[e.browser], w.cookies[e.browser];
    assert PageAgrees(cfg, w, n, e.browser);
    HeldIsLoaded(cfg, w, e.browser, m);
    TtlBounds(cfg, m.created, w.now);
    SavedIsListed(cfg, w.now, w.store, sid, e.session, m.created, m.users);
    assert e.session == m.data ==> m.users + Users(e.session) == m.users;
  }

  lemma SaveStaysMinted(cfg: Config, now: real, st: Store, sid: Sid, data: Data, at: real, create: bool,
      minted: set<Sid>)
    requires sid in minted && forall u :: u in st.index ==> st.index[u].sids <= minted
    ensures forall u :: u in Save(cfg, now, st, sid, data, at, create).index ==>
              Save(cfg, now, st, sid, data, at, create).index[u].sids <= minted
  {
  }

  lemma VisitStaysMinted(cfg: Config, w: World, e: Event)
    requires Separate(w) && IndexMinted(w) && e.Visit? && Possible(w, e)
    ensures IndexMinted(Step(cfg, w, e))
  {
    hide Save;
    var st, record, minted := w.store, Loaded(cfg, w, e.browser), w.minted + {e.newSid};
    if e.browser in w.cookies {
      st := Load(cfg, w.now, w.store, w.cookies[e.browser]).0;
    }
    if e.session != map[] && (record.None? || e.rotate) {
      var cleared := if record.Some? then Delete(st, w.cookies[e.browser], UserOf(record.value.data)) else st;
      SaveStaysMinted(cfg, w.now, cleared, e.newSid, e.session, w.now, true, minted);
    } else if e.session != map[] {
      SaveStaysMinted(cfg, w.now, st, w.cookies[e.browser], e.session, record.value.created, false, minted);
    }
  }

  lemma AgreeNext(cfg: Config, w: World, e: Event, n: Notebook)
    requires Sensible(cfg) && Agree(cfg, w, n) && Possible(w, e)
    ensures Agree(cfg, Step(cfg, w, e), Remember(cfg, n, e))
  {
    hide PageAgrees;
    if e.Visit? {
      VisitStaysMinted(cfg, w, e);
      VisitKeepsSeparate(cfg, w, e);
    }
    forall b ensures PageAgrees(cfg, Step(cfg, w, e), Remember(cfg, n, e), b) {
      match e
      case Wait(t) => WaitAgrees(cfg, w, t, n, b);
      case Revoke(user) => RevokeAgrees(cfg, w, user, n, b);
      case Visit(own, _, _, _) =>
        if b == own {
          VisitAgreesOwn(cfg, w, e, n);
        } else {
          VisitAgreesOther(cfg, w, e, n, b);
        }
    }
  }

  lemma {:induction false} AgreeAfter(cfg: Config, w: World, events: seq<Event>, n: Notebook)
    requires Sensible(cfg) && Agree(cfg, w, n) && Runs(cfg, w, events)
    ensures Agree(cfg, After(cfg, w, events), Kept(cfg, n, events))
    decreases |events|
  {
    if events != [] {
      AgreeNext(cfg, w, events[0], n);
      AgreeAfter(cfg, Step(cfg, w, events[0]), events[1..], Remember(cfg, n, events[0]));
    }
  }

  const INITIAL := World(0.0, Store(map[], map[]), map[], {})

  // In every run of visits, waits and revocations, a request sees exactly what the notebook recalls:
  // what its browser last left, as long as neither limit has passed and no user the session was
  // saved for has been revoked; and then the key expires exactly by the two limits.
  lemma RunsRefineDictionary(cfg: Config, events: seq<Event>, b: Browser)
    requires Sensible(cfg) && Runs(cfg, INITIAL, events)
    ensures
      var w, n := After(cfg, INITIAL, events), Kept(cfg, BLANK, events);
      && w.now == n.now && Seen(cfg, w, b) == Recall(cfg, n, b)
      && (Remembered(cfg, n, b) ==> Holds(cfg, w, b, n.pages[b]))
  {
    AgreeAfter(cfg, INITIAL, events, BLANK);
    var w, n := After(cfg, INITIAL, events), Kept(cfg, BLANK, events);
    assert PageAgrees(cfg, w, n, b);
    SeenIsRecalled(cfg, w, n, b);
  }

  // Others cannot write a browser's page.
  lemma {:induction false} PageStays(cfg: Config, n: Notebook, events: seq<Event>, b: Browser)
    requires b in n.pages
    requires forall i :: 0 <= i < |events| ==> Leaves(events[i], b, n.pages[b].users)
    ensures b in Kept(cfg, n, events).pages && Kept(cfg, n, events).pages[b] == n.pages[b]
    decreases |events|
  {
    if events != [] {
      assert Leaves(events[0], b, n.pages[b].users);
      PageStays(cfg, Remember(cfg, n, events[0]), events[1..], b);
    }
  }

  predicate Leaves(e: Event, b: Browser, users: set<User>) {
    && (e.Visit? ==> e.browser != b)
    && (e.Revoke? ==> e.user !in users)
  }

  lemma {:induction false} Split(cfg: Config, w: World, n: Notebook, before: seq<Event>, after: seq<Event>)
    requires Runs(cfg, w, before + after)
    ensures Runs(cfg, w, before) && Runs(cfg, After(cfg, w, before), after)
    ensures After(cfg, w, before + after) == After(cfg, After(cfg, w, before), after)
    ensures Kept(cfg, n, before + after) == Kept(cfg, Kept(cfg, n, before), after)
    decreases |before|
  {
    if before == [] {
      assert before + after == after;
    } else {
      assert (before + after)[1..] == before[1..] + after && (before + after)[0] == before[0];
      Split(cfg, Step(cfg, w, before[0]), Remember(cfg, n, before[0]), before[1..], after);
    }
  }

  // The last visit of the browser is event k, and no user its session was saved for is revoked later.
  predicate LastVisit(cfg: Config, events: seq<Event>, k: nat) {
    && k < |events| && events[k].Visit? && events[k].session != map[]
    && var users := Written(cfg, Kept(cfg, BLANK, events[..k]), events[k].browser, events[k].session,
        events[k].rotate).users;
       forall i :: k < i < |events| ==> Leaves(events[i], events[k].browser, users)
  }

  lemma PageOfLastVisit(cfg: Config, events: seq<Event>, k: nat)
    requires Runs(cfg, INITIAL, events) && LastVisit(cfg, events, k)
    ensures
      var e, n, t := events[k], Kept(cfg, BLANK, events[..k]), Kept(cfg, BLANK, events);
      e.browser in t.pages && t.pages[e.browser] == Written(cfg, n, e.browser, e.session, e.rotate)
  {
    hide Step, Possible;
    var before, visit, after := events[..k], events[k], events[k + 1..];
    var n := Kept(cfg, BLANK, before);
    var n1 := Remember(cfg, n, visit);
    assert events == before + ([visit] + after);
    Split(cfg, INITIAL, BLANK, before, [visit] + after);
    assert ([visit] + after)[1..] == after && Kept(cfg, n, [visit] + after) == Kept(cfg, n1, after);
    PageStays(cfg, n1, after, visit.browser);
  }

  // How long a session lasts: after the browser's last visit that left something behind, it is seen
  // exactly until the idle limit after that visit or the last second of its absolute limit.
  lemma SessionLasts(cfg: Config, events: seq<Event>, k: nat)
    requires Sensible(cfg) && Runs(cfg, INITIAL, events) && LastVisit(cfg, events, k)
    ensures
      var e, n, w := events[k], Kept(cfg, BLANK, events[..k]), After(cfg, INITIAL, events);
      var created := if Remembered(cfg, n, e.browser) && !e.rotate then n.pages[e.browser].created else n.now;
      Seen(cfg, w, e.browser) ==
      if w.now < n.now + cfg.idle as real && w.now + 1.0 <= created + cfg.maxAge as real then e.session else map[]
  {
    hide Step, Seen, Possible, Kept, After, Runs, Leaves;
    PageOfLastVisit(cfg, events, k);
    RunsRefineDictionary(cfg, events, events[k].browser);
  }

  // Until it expires, nothing but a revocation or the browser itself changes a session.
  lemma {:induction false} OthersCannotTouch(cfg: Config, w: World, events: seq<Event>, b: Browser)
    requires Sensible(cfg) && Separate(w) && Runs(cfg, w, events)
    requires forall i :: 0 <= i < |events| ==> !events[i].Revoke? && (events[i].Visit? ==> events[i].browser != b)
    requires b in w.cookies && w.cookies[b] in w.store.sessions
    ensures CookieOf(After(cfg, w, events), b) == CookieOf(w, b)
    ensures w.cookies[b] in After(cfg, w, events).store.sessions
    ensures After(cfg, w, events).store.sessions[w.cookies[b]] == w.store.sessions[w.cookies[b]]
    decreases |events|
  {
    if events != [] {
      var t := Step(cfg, w, events[0]);
      if events[0].Visit? {
        VisitKeepsSeparate(cfg, w, events[0]);
        VisitTouchesOwnIds(cfg, w, events[0], w.cookies[b]);
      }
      OthersCannotTouch(cfg, t, events[1..], b);
    }
  }
}

// What one response sends, as the commands that other requests may interleave with.
module AdminSessionPlans {
  import opened Basics
  import opened AdminSessionStoreSpec
  import opened AdminSessionCommands
  import opened AdminSessionBrowsers

  function SavePlan(cfg: Config, now: real, sid: Sid, data: Data, created: real, create: bool): seq<Command> {
    var ttl := Ttl(cfg, created, now);
    if ttl <= 0 then [DeleteOne(sid, UserOf(data))]
    else if create then [SetNew(sid, data, created, ttl)]
    else [SetExisting(sid, data, created, ttl)]
  }

  function TouchPlan(cfg: Config, now: real, sid: Sid, created: real): seq<Command> {
    var ttl := Ttl(cfg, created, now);
    if ttl > 0 then [Expire(sid, ttl)] else [DeleteOne(sid, None)]
  }

  function CommitPlan(cfg: Config, now: real, sid: Option<Sid>, record: Option<Entry>,
                      session: Data, rotate: bool, newSid: Sid): seq<Command>
    requires record.Some? ==> sid.Some?
  {
    var clear := if record.Some? then [DeleteOne(sid.value, UserOf(record.value.data))] else [];
    if session == map[] then clear
    else if record.None? || rotate then clear + SavePlan(cfg, now, newSid, session, now, true)
    else if session != record.value.data then SavePlan(cfg, now, sid.value, session, record.value.created, false)
    else TouchPlan(cfg, now, sid.value, record.value.created)
  }

  // The commands one after the other, with the index update after each SET that wrote.
  function ExecAll(cfg: Config, now: real, st: Store, commands: seq<Command>): Store
    decreases |commands|
  {
    if commands == [] then st
    else
      var c := commands[0];
      var done := Exec(cfg, now, st, c);
      var listed :=
        if (c.SetNew? || (c.SetExisting? && Live(st, now, c.sid))) && UserOf(c.data).Some?
        then Exec(cfg, now, done, AddToIndex(UserOf(c.data).value, c.sid))
        else done;
      ExecAll(cfg, now, listed, commands[1..])
  }

  // A response creates its own new id only, and undisturbed its commands do what `_commit` says.
  lemma CommitIsItsCommands(cfg: Config, now: real, st: Store, sid: Option<Sid>, record: Option<Entry>,
                            session: Data, rotate: bool, newSid: Sid)
    requires record.Some? ==> sid.Some?
    ensures CreatesOnly(CommitPlan(cfg, now, sid, record, session, rotate, newSid), newSid)
    ensures Ordinary(CommitPlan(cfg, now, sid, record, session, rotate, newSid))
    ensures ExecAll(cfg, now, st, CommitPlan(cfg, now, sid, record, session, rotate, newSid)) ==
            Commit(cfg, now, st, sid, record, session, rotate, newSid).0
  {
    if session != map[] {
      if record.None? || rotate {
        var cleared := if record.Some? then Delete(st, sid.value, UserOf(record.value.data)) else st;
        SaveIsItsCommands(cfg, now, cleared, newSid, session, now, true);
        if record.Some? {
          var save := SavePlan(cfg, now, newSid, session, now, true);
          assert ([DeleteOne(sid.value, UserOf(record.value.data))] + save)[1..] == save;
        }
      } else if session != record.value.data {
        SaveIsItsCommands(cfg, now, st, sid.value, session, record.value.created, false);
      }
    }
  }

  lemma SaveIsItsCommands(cfg: Config, now: real, st: Store, sid: Sid, data: Data, created: real, create: bool)
    ensures ExecAll(cfg, now, st, SavePlan(cfg, now, sid, data, created, create)) ==
            Save(cfg, now, st, sid, data, created, create)
  {
  }
}

// Revocations among the commands of other requests: SMEMBERS, then the DEL.
module AdminSessionRevocations {
  import opened Basics
  import opened AdminSessionStoreSpec
  import opened AdminSessionCommands
  import opened AdminSessionPlans
  import AdminSessionBrowsers

  lemma Cons(cfg: Config, s: System, a: Action, acts: seq<Action>)
    requires Enabled(s, a) && Runs(cfg, Next(cfg, s, a), acts)
    ensures Runs(cfg, s, [a] + acts) && After(cfg, s, [a] + acts) == After(cfg, Next(cfg, s, a), acts)
  {
    assert ([a] + acts)[1..] == acts;
  }

  // The plan of a first login.
  lemma LoginPlan(cfg: Config, data: Data, sid: Sid)
    requires AdminSessionBrowsers.Sensible(cfg) && data != map[]
    ensures CommitPlan(cfg, 0.0, None, None, data, false, sid) == [SetNew(sid, data, 0.0, Ttl(cfg, 0.0, 0.0))]
    ensures Ttl(cfg, 0.0, 0.0) > 0
  {
    AdminSessionBrowsers.FreshSessionLoads(cfg, 0.0, 0.0);
    assert [] + SavePlan(cfg, 0.0, sid, data, 0.0, true) == SavePlan(cfg, 0.0, sid, data, 0.0, true);
  }

  predicate IsSession(s: System, sid: Sid, user: User) {
    Live(s.store, s.now, sid) && UserOf(s.store.sessions[sid].data) == Some(user)
  }

  // A revocation that comes between the SET and the SADD of a login misses its session.
  lemma SavedNotYetListed(cfg: Config, data: Data, user: User, sid: Sid) returns (acts: seq<Action>)
    requires AdminSessionBrowsers.Sensible(cfg) && UserOf(data) == Some(user)
    ensures acts == [Plan(0, CommitPlan(cfg, 0.0, None, None, data, false, sid), sid), Send(0),
                     ReadMembers(1, user), Send(1), Send(0)]
    ensures Runs(cfg, INITIAL, acts) && IsSession(After(cfg, INITIAL, acts), sid, user)
  {
    LoginPlan(cfg, data, sid);
    var plan := CommitPlan(cfg, 0.0, None, None, data, false, sid);
    var s1 := Next(cfg, INITIAL, Plan(0, plan, sid));
    var s2 := Next(cfg, s1, Send(0));
    var s3 := Next(cfg, s2, ReadMembers(1, user));
    var s4 := Next(cfg, s3, Send(1));
    var s5 := Next(cfg, s4, Send(0));
    assert After(cfg, s5, []) == s5;
    acts := [Send(0)] + [];
    Cons(cfg, s4, Send(0), []);
    Cons(cfg, s3, Send(1), acts);
    acts := [Send(1)] + acts;
    Cons(cfg, s2, ReadMembers(1, user), acts);
    acts := [ReadMembers(1, user)] + acts;
    Cons(cfg, s1, Send(0), acts);
    acts := [Send(0)] + acts;
    Cons(cfg, INITIAL, Plan(0, plan, sid), acts);
    acts := [Plan(0, plan, sid)] + acts;
  }

  // A login that comes whole between a revocation's SMEMBERS and its DEL is missed as well, though
  // it is listed when the DEL runs. The DEL takes the index along, so the next revocation, undisturbed,
  // misses the session too.
  lemma ListedButUnread(cfg: Config, data: Data, user: User, sid: Sid) returns (acts: seq<Action>)
    requires AdminSessionBrowsers.Sensible(cfg) && UserOf(data) == Some(user)
    ensures acts == [ReadMembers(1, user), Plan(0, CommitPlan(cfg, 0.0, None, None, data, false, sid), sid),
                     Send(0), Send(0), Send(1), ReadMembers(2, user), Send(2)]
    ensures Runs(cfg, INITIAL, acts[..4]) && Runs(cfg, INITIAL, acts)
    ensures sid in Members(After(cfg, INITIAL, acts[..4]).store, After(cfg, INITIAL, acts[..4]).now, user)
    ensures IsSession(After(cfg, INITIAL, acts), sid, user) && user !in After(cfg, INITIAL, acts).store.index
  {
    LoginPlan(cfg, data, sid);
    var plan := CommitPlan(cfg, 0.0, None, None, data, false, sid);
    var s1 := Next(cfg, INITIAL, ReadMembers(1, user));
    var s2 := Next(cfg, s1, Plan(0, plan, sid));
    var s3 := Next(cfg, s2, Send(0));
    var s4 := Next(cfg, s3, Send(0));
    LoginThenNothing(cfg, user, sid, s1, s2, s3, plan);
    acts := MissedTwice(cfg, s4, user, sid);
    Cons(cfg, s3, Send(0), acts);
    acts := [Send(0)] + acts;
    Cons(cfg, s2, Send(0), acts);
    acts := [Send(0)] + acts;
    Cons(cfg, s1, Plan(0, plan, sid), acts);
    acts := [Plan(0, plan, sid)] + acts;
    Cons(cfg, INITIAL, ReadMembers(1, user), acts);
    acts := [ReadMembers(1, user)] + acts;
    assert acts[..4] == [ReadMembers(1, user), Plan(0, plan, sid), Send(0), Send(0)];
  }

  // A DEL that read nothing leaves the session and takes the index, and a second revocation reads
  // nothing again.
  lemma MissedTwice(cfg: Config, s: System, user: User, sid: Sid) returns (acts: seq<Action>)
    requires 1 in s.pending && s.pending[1] == [DeleteMany(user, {})] && 2 !in s.pending && IsSession(s, sid, user)
    ensures acts == [Send(1), ReadMembers(2, user), Send(2)] && Runs(cfg, s, acts)
    ensures IsSession(After(cfg, s, acts), sid, user) && user !in After(cfg, s, acts).store.index
  {
    var s1 := Next(cfg, s, Send(1));
    var s2 := Next(cfg, s1, ReadMembers(2, user));
    Cons(cfg, s2, Send(2), []);
    acts := [Send(2)] + [];
    Cons(cfg, s1, ReadMembers(2, user), acts);
    acts := [ReadMembers(2, user)] + acts;
    Cons(cfg, s, Send(1), acts);
    acts := [Send(1)] + acts;
  }

  lemma LoginThenNothing(cfg: Config, user: User, sid: Sid, s1: System, s2: System, s3: System, plan: seq<Command>)
    requires s1 == Next(cfg, INITIAL, ReadMembers(1, user))
    requires Enabled(s1, Plan(0, plan, sid)) && s2 == Next(cfg, s1, Plan(0, plan, sid))
    requires Enabled(s2, Send(0)) && s3 == Next(cfg, s2, Send(0)) && Enabled(s3, Send(0))
    ensures Runs(cfg, INITIAL, [ReadMembers(1, user), Plan(0, plan, sid), Send(0), Send(0)])
    ensures After(cfg, INITIAL, [ReadMembers(1, user), Plan(0, plan, sid), Send(0), Send(0)]) == Next(cfg, s3, Send(0))
  {
    var acts := [Send(0)] + [];
    Cons(cfg, s3, Send(0), []);
    Cons(cfg, s2, Send(0), acts);
    acts := [Send(0)] + acts;
    Cons(cfg, s1, Plan(0, plan, sid), acts);
    acts := [Plan(0, plan, sid)] + acts;
    Cons(cfg, INITIAL, ReadMembers(1, user), acts);
    assert [ReadMembers(1, user)] + acts == [ReadMembers(1, user), Plan(0, plan, sid), Send(0), Send(0)];
  }

  predicate Undisturbed(acts: seq<Action>, rid: Rid) {
    forall i :: 0 <= i < |acts| ==> acts[i] != Send(rid) && acts[i] != Abort(rid)
  }

  lemma {:induction false} PlanWaits(cfg: Config, s: System, acts: seq<Action>, rid: Rid)
    requires Runs(cfg, s, acts) && rid in s.pending && Undisturbed(acts, rid)
    ensures rid in After(cfg, s, acts).pending && After(cfg, s, acts).pending[rid] == s.pending[rid]
    decreases |acts|
  {
    if acts != [] {
      assert acts[0] != Send(rid) && acts[0] != Abort(rid);
      PlanWaits(cfg, Next(cfg, s, acts[0]), acts[1..], rid);
    }
  }

  // Only ids whose SET has run are listed.
  ghost predicate ListedAreBorn(s: System) {
    && (forall u :: u in s.store.index ==> s.store.index[u].sids <= s.born)
    && (forall r, i :: r in s.pending && 0 <= i < |s.pending[r]| && s.pending[r][i].AddToIndex? ==>
        s.pending[r][i].sid in s.born)
  }

  lemma ListedAreBornNext(cfg: Config, s: System, a: Action)
    requires Inv(s) && ListedAreBorn(s) && Enabled(s, a)
    ensures ListedAreBorn(Next(cfg, s, a))
  {
    var t := Next(cfg, s, a);
    forall r, i | r in t.pending && 0 <= i < |t.pending[r]| && t.pending[r][i].AddToIndex?
      ensures t.pending[r][i].sid in t.born
    {
      if a.Send? && a.rid == r {
        SentIsBorn(cfg, s, r, i);
      }
    }
    if a.Send? && s.pending[a.rid][0].AddToIndex? {
      assert s.pending[a.rid][0].sid in s.born;
    }
  }

  lemma SentIsBorn(cfg: Config, s: System, rid: Rid, i: nat)
    requires Inv(s) && ListedAreBorn(s) && Enabled(s, Send(rid))
    requires i < |Rest(s, rid)| && Rest(s, rid)[i].AddToIndex?
    ensures Rest(s, rid)[i].sid in Next(cfg, s, Send(rid)).born
  {
    var d := |Rest(s, rid)| - |s.pending[rid]|;
    if d == 0 && i == 0 {
    } else {
      assert Rest(s, rid)[i] == s.pending[rid][i - d];
    }
  }

  lemma {:induction false} ListedAreBornAfter(cfg: Config, s: System, acts: seq<Action>)
    requires Inv(s) && ListedAreBorn(s) && Runs(cfg, s, acts)
    ensures ListedAreBorn(After(cfg, s, acts))
    decreases |acts|
  {
    if acts != [] {
      ListedAreBornNext(cfg, s, acts[0]);
      InvNext(cfg, s, acts[0]);
      ListedAreBornAfter(cfg, Next(cfg, s, acts[0]), acts[1..]);
    }
  }

  // A revocation in any run of interleaved commands: it reads the members, other commands run, and
  // its DEL is sent. A session survives it exactly if it was not among the members read; and one
  // that was is dead for good.
  lemma RevocationMissesUnread(cfg: Config, before: seq<Action>, rid: Rid, user: User, between: seq<Action>,
                               after: seq<Action>, sid: Sid)
    requires Runs(cfg, INITIAL, before) && Enabled(After(cfg, INITIAL, before), ReadMembers(rid, user))
    requires Runs(cfg, Next(cfg, After(cfg, INITIAL, before), ReadMembers(rid, user)), between)
            && Undisturbed(between, rid)
    requires
      var s2 := After(cfg, Next(cfg, After(cfg, INITIAL, before), ReadMembers(rid, user)), between);
      Enabled(s2, Send(rid)) && Runs(cfg, Next(cfg, s2, Send(rid)), after)
    ensures
      var s0 := After(cfg, INITIAL, before);
      var s2 := After(cfg, Next(cfg, s0, ReadMembers(rid, user)), between);
      var s3 := Next(cfg, s2, Send(rid));
      var read := Members(s0.store, s0.now, user);
      && (Live(s3.store, s3.now, sid) <==> Live(s2.store, s2.now, sid) && sid !in read)
      && (sid in read ==> !Live(After(cfg, s3, after).store, After(cfg, s3, after).now, sid))
  {
    var s0 := After(cfg, INITIAL, before);
    InvAfter(cfg, INITIAL, before);
    ListedAreBornAfter(cfg, INITIAL, before);
    var s1 := Next(cfg, s0, ReadMembers(rid, user));
    InvNext(cfg, s0, ReadMembers(rid, user));
    PlanWaits(cfg, s1, between, rid);
    var s2 := After(cfg, s1, between);
    InvAfter(cfg, s1, between);
    InvNext(cfg, s2, Send(rid));
    if sid in Members(s0.store, s0.now, user) {
      BornForever(cfg, s1, between, sid);
      DeadStaysDead(cfg, Next(cfg, s2, Send(rid)), after, sid);
    }
  }

  // ---------------------------------------------------------------------------------------
  // Which sessions a revocation does not read
  // ---------------------------------------------------------------------------------------

  // The step is the DEL of a revocation of the user that had not read the session.
  predicate Misses(s: System, a: Action, user: User, sid: Sid) {
    && a.Send? && Enabled(s, a)
    && s.pending[a.rid][0].DeleteMany? && s.pending[a.rid][0].user == user && sid !in s.pending[a.rid][0].sids
  }

  ghost predicate MissedIn(cfg: Config, s: System, acts: seq<Action>, user: User, sid: Sid)
    requires Runs(cfg, s, acts)
  {
    exists i :: 0 <= i < |acts| && Runs(cfg, s, acts[..i]) && Misses(After(cfg, s, acts[..i]), acts[i], user, sid)
  }

  predicate ListedUntil(s: System, user: User, sid: Sid, until: real) {
    user in s.store.index && sid in s.store.index[user].sids && until <= s.store.index[user].exp
  }

  // A listed session that lives on leaves the index only by a DEL that had not read it.
  lemma ListedNext(cfg: Config, s: System, a: Action, user: User, sid: Sid, until: real)
    requires Enabled(s, a) && ListedUntil(s, user, sid, until) && s.now < until
    requires until <= s.now + cfg.maxAge as real
    requires sid in Next(cfg, s, a).store.sessions && !Misses(s, a, user, sid)
    ensures ListedUntil(Next(cfg, s, a), user, sid, until)
  {
  }

  lemma TimeGrows(cfg: Config, s: System, acts: seq<Action>)
    requires Runs(cfg, s, acts)
    ensures s.now <= After(cfg, s, acts).now
    decreases |acts|
  {
    if acts != [] {
      TimeGrows(cfg, Next(cfg, s, acts[0]), acts[1..]);
    }
  }

  lemma MissedLater(cfg: Config, s: System, acts: seq<Action>, user: User, sid: Sid)
    requires acts != [] && Runs(cfg, s, acts) && MissedIn(cfg, Next(cfg, s, acts[0]), acts[1..], user, sid)
    ensures MissedIn(cfg, s, acts, user, sid)
  {
    var t, rest := Next(cfg, s, acts[0]), acts[1..];
    var i :| 0 <= i < |rest| && Runs(cfg, t, rest[..i]) && Misses(After(cfg, t, rest[..i]), rest[i], user, sid);
    Cons(cfg, s, acts[0], rest[..i]);
    assert acts[..i + 1] == [acts[0]] + rest[..i];
  }

  lemma MissedNow(cfg: Config, s: System, acts: seq<Action>, user: User, sid: Sid)
    requires acts != [] && Runs(cfg, s, acts) && Misses(s, acts[0], user, sid)
    ensures MissedIn(cfg, s, acts, user, sid)
  {
    assert acts[..0] == [] && After(cfg, s, acts[..0]) == s;
  }

  // A session that is dead at some point of a run is dead at its end.
  lemma LivesThroughout(cfg: Config, s: System, a: Action, acts: seq<Action>, sid: Sid)
    requires Inv(s) && Enabled(s, a) && Runs(cfg, Next(cfg, s, a), acts) && sid in s.born
    requires Live(After(cfg, Next(cfg, s, a), acts).store, After(cfg, Next(cfg, s, a), acts).now, sid)
    ensures sid in Next(cfg, s, a).store.sessions && sid in Next(cfg, s, a).born && Inv(Next(cfg, s, a))
  {
    InvNext(cfg, s, a);
    BornForever(cfg, s, [a], sid);
    OneAction(cfg, s, a);
    if !Live(Next(cfg, s, a).store, Next(cfg, s, a).now, sid) {
      DeadStaysDead(cfg, Next(cfg, s, a), acts, sid);
    }
  }

  lemma OneAction(cfg: Config, s: System, a: Action)
    requires Enabled(s, a)
    ensures Runs(cfg, s, [a]) && After(cfg, s, [a]) == Next(cfg, s, a)
  {
    Cons(cfg, s, a, []);
    assert [a] + [] == [a];
  }

  // A session that has been listed and is live later, within the index's time, is still among the
  // members then, unless a revocation's DEL missed it in between.
  lemma {:induction false} ListedIsReadOrMissed(cfg: Config, s: System, acts: seq<Action>, user: User, sid: Sid,
      until: real)
    requires Inv(s) && Runs(cfg, s, acts) && sid in s.born && ListedUntil(s, user, sid, until)
    requires After(cfg, s, acts).now < until <= s.now + cfg.maxAge as real
    requires Live(After(cfg, s, acts).store, After(cfg, s, acts).now, sid)
    ensures sid in Members(After(cfg, s, acts).store, After(cfg, s, acts).now, user)
            || MissedIn(cfg, s, acts, user, sid)
    decreases |acts|
  {
    if acts != [] {
      var a, t, rest := acts[0], Next(cfg, s, acts[0]), acts[1..];
      TimeGrows(cfg, s, acts);
      TimeGrows(cfg, t, rest);
      LivesThroughout(cfg, s, a, rest, sid);
      if Misses(s, a, user, sid) {
        MissedNow(cfg, s, acts, user, sid);
      } else {
        ListedNext(cfg, s, a, user, sid, until);
        ListedIsReadOrMissed(cfg, t, rest, user, sid, until);
        if MissedIn(cfg, t, rest, user, sid) {
          MissedLater(cfg, s, acts, user, sid);
        }
      }
    }
  }

  // Which sessions stored before a revocation outlive it. A login's SADD runs at s; later a revocation
  // reads the members and sends its DEL, other commands in between; and the session is live
  // afterwards, though the revocation came within the absolute limit after the SADD. Then the DEL of
  // an earlier revocation had missed it. So with every SADD behind it and no earlier miss, a
  // revocation ends every session of the user.
  lemma SurvivorWasMissedBefore(cfg: Config, before: seq<Action>, login: Rid, acts: seq<Action>, rid: Rid, user: User,
                                between: seq<Action>, sid: Sid)
    requires Runs(cfg, INITIAL, before) && Enabled(After(cfg, INITIAL, before), Send(login))
    requires After(cfg, INITIAL, before).pending[login][0] == AddToIndex(user, sid) && cfg.maxAge > 0
    requires
      var s := Next(cfg, After(cfg, INITIAL, before), Send(login));
      && Runs(cfg, s, acts) && After(cfg, s, acts).now < s.now + cfg.maxAge as real
      && Enabled(After(cfg, s, acts), ReadMembers(rid, user))
      && Runs(cfg, Next(cfg, After(cfg, s, acts), ReadMembers(rid, user)), between) && Undisturbed(between, rid)
    requires
      var s := Next(cfg, After(cfg, INITIAL, before), Send(login));
      var s2 := After(cfg, Next(cfg, After(cfg, s, acts), ReadMembers(rid, user)), between);
      Enabled(s2, Send(rid)) && Live(Next(cfg, s2, Send(rid)).store, Next(cfg, s2, Send(rid)).now, sid)
    ensures MissedIn(cfg, Next(cfg, After(cfg, INITIAL, before), Send(login)), acts, user, sid)
  {
    var s0 := After(cfg, INITIAL, before);
    var s := Next(cfg, s0, Send(login));
    AddedIsListed(cfg, before, login, user, sid);
    var s1 := After(cfg, s, acts);
    InvAfter(cfg, s, acts);
    BornForever(cfg, s, acts, sid);
    var r := Next(cfg, s1, ReadMembers(rid, user));
    InvNext(cfg, s1, ReadMembers(rid, user));
    PlanWaits(cfg, r, between, rid);
    var s2 := After(cfg, r, between);
    assert Live(s2.store, s2.now, sid) && sid !in Members(s1.store, s1.now, user);
    if !Live(r.store, r.now, sid) {
      DeadStaysDead(cfg, r, between, sid);
    }
    ListedIsReadOrMissed(cfg, s, acts, user, sid, s.now + cfg.maxAge as real);
  }

  lemma AddedIsListed(cfg: Config, before: seq<Action>, login: Rid, user: User, sid: Sid)
    requires Runs(cfg, INITIAL, before) && Enabled(After(cfg, INITIAL, before), Send(login))
    requires After(cfg, INITIAL, before).pending[login][0] == AddToIndex(user, sid)
    ensures
      var s := Next(cfg, After(cfg, INITIAL, before), Send(login));
      Inv(s) && sid in s.born && ListedUntil(s, user, sid, s.now + cfg.maxAge as real)
  {
    InvAfter(cfg, INITIAL, before);
    ListedAreBornAfter(cfg, INITIAL, before);
    InvNext(cfg, After(cfg, INITIAL, before), Send(login));
  }
}

module AdminSessionClasses {
  import opened Basics
  import opened AdminSessionStoreSpec
  import opened AdminSessionBrowsers

  class AdminSessionStore {
    const cfg: Config
    var sessions: map<Sid, Entry>
    var index: map<User, UserIndex>

    constructor (cfg: Config)
      ensures this.cfg == cfg && Contents() == Store(map[], map[])
    {
      this.cfg := cfg;
      sessions, index := map[], map[];
    }

    function Contents(): Store
      reads this
    {
      Store(sessions, index)
    }

    method DeleteSession(sid: Sid, user: Option<User>)
      modifies this
      ensures Contents() == Delete(old(Contents()), sid, user)
    {
      sessions := sessions - {sid};
      if user.Some? && user.value in index {
        index := index[user.value := index[user.value].(sids := index[user.value].sids - {sid})];
      }
    }

    method LoadSession(now: real, sid: Sid) returns (record: Option<Entry>)
      modifies this
      ensures (Contents(), record) == Load(cfg, now, old(Contents()), sid)
    {
      if sid !in sessions || sessions[sid].exp <= now {
        return None;
      }
      var entry := sessions[sid];
      if Ttl(cfg, entry.created, now) <= 0 {
        DeleteSession(sid, UserOf(entry.data));
        return None;
      }
      record := Some(entry);
    }

    method SaveSession(now: real, sid: Sid, data: Data, created: real, create: bool)
      modifies this
      ensures Contents() == Save(cfg, now, old(Contents()), sid, data, created, create)
    {
      var ttl := Ttl(cfg, created, now);
      var user := UserOf(data);
      if ttl <= 0 {
        DeleteSession(sid, user);
        return;
      }
      if !create && !(sid in sessions && now < sessions[sid].exp) {
        return;
      }
      sessions := sessions[sid := Entry(data, created, now + ttl as real)];
      if user.Some? {
        var listed := if user.value in index && now < index[user.value].exp then index[user.value].sids else {};
        index := index[user.value := UserIndex(listed + {sid}, now + cfg.maxAge as real)];
      }
    }

    method TouchSession(now: real, sid: Sid, created: real)
      modifies this
      ensures Contents() == Touch(cfg, now, old(Contents()), sid, created)
    {
      var ttl := Ttl(cfg, created, now);
      if ttl > 0 {
        if sid in sessions && now < sessions[sid].exp {
          sessions := sessions[sid := sessions[sid].(exp := now + ttl as real)];
        }
      } else {
        sessions := sessions - {sid};
      }
    }

    method RevokeSessions(now: real, user: User)
      modifies this
      ensures Contents() == RevokeUser(now, old(Contents()), user)
    {
      var keys := if user in index && now < index[user].exp then index[user].sids else {};
      sessions := sessions - keys;
      index := index - {user};
    }
  }

  class RedisSessionMiddleware {
    const store: AdminSessionStore

    constructor (store: AdminSessionStore)
      ensures this.store == store
    {
      this.store := store;
    }

    // `_commit`: the cookie to send, and the keys behind it.
    method CommitSession(now: real, sid: Option<Sid>, record: Option<Entry>, session: Data, rotate: bool, newSid: Sid)
      returns (cookie: CookieChange)
      requires record.Some? ==> sid.Some?
      modifies store
      ensures (store.Contents(), cookie) ==
              Commit(store.cfg, now, old(store.Contents()), sid, record, session, rotate, newSid)
    {
      if session == map[] {
        if record.Some? {
          store.DeleteSession(sid.value, UserOf(record.value.data));
        }
        return if sid.Some? then Clear else Keep;
      }
      if record.None? || rotate {
        if record.Some? {
          store.DeleteSession(sid.value, UserOf(record.value.data));
        }
        store.SaveSession(now, newSid, session, now, true);
        return SetTo(newSid);
      }
      if session != record.value.data {
        store.SaveSession(now, sid.value, session, record.value.created, false);
      } else {
        store.TouchSession(now, sid.value, record.value.created);
      }
      return Keep;
    }
  }
}

// Ending a user's access: the rule that decides it, the order that makes it fail closed, and
// what that order is worth when logins and edits run concurrently.

module UserAccess {
  import opened Basics
  import R = RefreshStore
  import A = AdminSessionStoreSpec
  import AdminSessionRuns

  datatype Row = Row(email: string, isActive: bool, isSuperuser: bool, hash: string)

  // The fields a request sent. The API never sends `hash`; the admin pages and the CLI do.
  datatype Changes = Changes(email: Option<string>, isActive: Option<bool>, isSuperuser: Option<bool>,
      hash: Option<string>)

  function Or<T>(o: Option<T>, d: T): T { if o.Some? then o.value else d }

  function Applied(row: Row, c: Changes): Row {
    Row(Or(c.email, row.email), Or(c.isActive, row.isActive), Or(c.isSuperuser, row.isSuperuser), Or(c.hash, row.hash))
  }

  // What the database writes: the session compares each attribute that was set with the value it
  // read, and writes only the columns that differ.
  function Field<T(==)>(sent: Option<T>, read: T, current: T): T {
    if sent.Some? && sent.value != read then sent.value else current
  }

  function Merged(read: Row, c: Changes, current: Row): Row {
    Row(Field(c.email, read.email, current.email), Field(c.isActive, read.isActive, current.isActive),
        Field(c.isSuperuser, read.isSuperuser, current.isSuperuser), Field(c.hash, read.hash, current.hash))
  }

  datatype Revocation = Revocation(adminSessions: bool, refresh: bool)

  const DELETED := Revocation(true, true)

  predicate Lost(before: Row, after: Row) {
    || (before.isActive && !after.isActive)
    || (before.isSuperuser && !after.isSuperuser)
    || before.hash != after.hash
  }

  function RevocationFor(before: Row, after: Row): Revocation {
    Revocation(Lost(before, after), Lost(before, after))
  }

  // An edit takes from the row it meets only what its rule saw it take from the row it read, however
  // the row has changed in between; and it meets what it read as it judged it.
  lemma LossIsJudged(read: Row, c: Changes, current: Row)
    ensures Lost(current, Merged(read, c, current)) ==> RevocationFor(read, Applied(read, c)) == DELETED
    ensures Merged(read, c, read) == Applied(read, c)
  {
  }

  // Whatever is lost over a chain of edits is lost in one of them, and that edit revokes.
  lemma {:induction false} LostSomewhere(rows: seq<Row>)
    requires rows != [] && Lost(rows[0], rows[|rows| - 1])
    ensures exists i :: 0 <= i < |rows| - 1 && RevocationFor(rows[i], rows[i + 1]) == DELETED
  {
    var n := |rows| - 1;
    if n > 0 && !Lost(rows[n - 1], rows[n]) {
      LostSomewhere(rows[..n]);
      var i :| 0 <= i < n - 1 && RevocationFor(rows[..n][i], rows[..n][i + 1]) == DELETED;
      assert RevocationFor(rows[i], rows[i + 1]) == DELETED;
    } else if n > 0 {
      assert RevocationFor(rows[n - 1], rows[n - 1 + 1]) == DELETED;
    }
  }

  // What revoking means in the two stores: no token or session that the store's index covers
  // can be used at any later time.
  lemma RevokedTokensAreUnusable(s: R.Store, ttl: R.Seconds, now: R.Time, sub: R.Sub, jti: R.Jti, t: R.Time)
    requires jti in s.tokens && s.tokens[jti].sub == sub && s.tokens[jti].exp <= now + ttl
    requires R.Covered(s, now, jti) && t >= now
    ensures !R.Usable(R.RevokeUser(s, ttl, now, sub), t, jti)
  {
  }

  lemma RevokedSessionsAreGone(cfg: A.Config, st: A.Store, now: real, user: A.User, sid: A.Sid, t: real)
    requires sid in st.sessions && A.UserOf(st.sessions[sid].data) == Some(user)
    requires AdminSessionRuns.Indexed(cfg, now, st, sid) && t >= now
    ensures !A.Live(A.RevokeUser(now, st, user), t, sid)
  {
  }
}

// One user: edits, deletions, logins and rotations, interleaved between their awaits.
module UserRuns {
  import opened Basics
  import opened UserAccess

  type Id = nat

  datatype Kind = RefreshTokens | AdminSessions

  datatype Token = Token(kind: Kind, id: Id)

  // The row a login or a rotation read, and when; times count the steps of the run.
  datatype Login = Login(row: Row, readAt: nat)

  datatype Credential = Credential(login: Login, storedAt: nat)

  datatype Job = Update(changes: Changes) | Delete

  // A committed edit remembers the row it replaced.
  datatype Phase = Open | Undone | Committed(at: nat, seen: Option<Row>)

  // `before` is the row the edit read; `revokedAt` says when it revoked which store.
  datatype Edit = Edit(job: Job, before: Row, revokedAt: map<Kind, nat>, phase: Phase)

  datatype System = System(
    now: nat,
    row: Option<Row>,                  // committed
    live: map<Token, Credential>,
    logins: map<Token, Login>,         // read, not yet stored
    minted: set<Token>,
    edits: map<Id, Edit>,              // open and over
    commits: seq<Id>)                  // in order

  datatype Fault = NoFault | BeforeEffect | AfterEffect

  datatype Action =
    | Read(token: Token)                // a login or a rotation reads the user
    | Store(token: Token)               // and stores its credential
    | GiveUp(token: Token)
    | Expire(token: Token)
    | Begin(id: Id, job: Job)
    | Revoke(id: Id, kind: Kind, fault: Fault)
    | Commit(id: Id)
    | Rollback(id: Id)                  // any other failure

  function Asked(job: Job, before: Row): Revocation {
    if job.Delete? then DELETED else RevocationFor(before, Applied(before, job.changes))
  }

  predicate Asks(e: Edit, kind: Kind) {
    if kind.RefreshTokens? then Asked(e.job, e.before).refresh else Asked(e.job, e.before).adminSessions
  }

  // The refresh store comes first; without admin pages there is no second one.
  predicate MayRevoke(adminOn: bool, e: Edit, kind: Kind) {
    && e.phase.Open? && Asks(e, kind) && kind !in e.revokedAt
    && (kind.AdminSessions? ==> adminOn && (Asks(e, RefreshTokens) ==> RefreshTokens in e.revokedAt))
  }

  predicate Ready(adminOn: bool, e: Edit) {
    && e.phase.Open?
    && (Asks(e, RefreshTokens) ==> RefreshTokens in e.revokedAt)
    && (Asks(e, AdminSessions) && adminOn ==> AdminSessions in e.revokedAt)
  }

  predicate MayLogIn(adminOn: bool, row: Option<Row>, kind: Kind) {
    row.Some? && row.value.isActive && (kind.AdminSessions? ==> adminOn && row.value.isSuperuser)
  }

  // An update of a row that is gone fails: its write matches no row, or its refresh finds none.
  predicate Enabled(adminOn: bool, s: System, a: Action) {
    match a
    case Read(token) => token !in s.minted && MayLogIn(adminOn, s.row, token.kind)
    case Store(token) => token in s.logins
    case GiveUp(token) => token in s.logins
    case Expire(token) => token in s.live
    case Begin(id, job) => id !in s.edits && s.row.Some?
    case Revoke(id, kind, _) => id in s.edits && MayRevoke(adminOn, s.edits[id], kind)
    case Commit(id) => id in s.edits && Ready(adminOn, s.edits[id]) && (s.edits[id].job.Update? ==> s.row.Some?)
    case Rollback(id) => id in s.edits && s.edits[id].phase.Open?
  }

  function Without(live: map<Token, Credential>, kind: Kind): map<Token, Credential> {
    map token | token in live && token.kind != kind :: live[token]
  }

  function Saved(row: Option<Row>, e: Edit): Option<Row> {
    if e.job.Update? && row.Some? then Some(Merged(e.before, e.job.changes, row.value)) else None
  }

  function Next(adminOn: bool, s: System, a: Action): System
    requires Enabled(adminOn, s, a)
  {
    Effect(adminOn, s, a).(now := s.now + 1)
  }

  function Effect(adminOn: bool, s: System, a: Action): System
    requires Enabled(adminOn, s, a)
  {
    match a
    case Read(token) => s.(logins := s.logins[token := Login(s.row.value, s.now)], minted := s.minted + {token})
    case Store(token) =>
      s.(logins := s.logins - {token}, live := s.live[token := Credential(s.logins[token], s.now)])
    case GiveUp(token) => s.(logins := s.logins - {token})
    case Expire(token) => s.(live := s.live - {token})
    case Begin(id, job) => s.(edits := s.edits[id := Edit(job, s.row.value, map[], Open)])
    case Revoke(id, kind, fault) =>
      var e := s.edits[id];
      if fault.BeforeEffect? then s.(edits := s.edits[id := e.(phase := Undone)])
      else
        s.(live := Without(s.live, kind),
           edits := s.edits[id := e.(revokedAt := e.revokedAt[kind := s.now],
                                     phase := if fault.AfterEffect? then Undone else Open)])
    case Commit(id) =>
      var e := s.edits[id];
      s.(row := Saved(s.row, e), edits := s.edits[id := e.(phase := Committed(s.now, s.row))],
         commits := s.commits + [id])
    case Rollback(id) => s.(edits := s.edits[id := s.edits[id].(phase := Undone)])
  }

  predicate Runs(adminOn: bool, s: System, acts: seq<Action>)
    decreases |acts|
  {
    acts == [] || (Enabled(adminOn, s, acts[0]) && Runs(adminOn, Next(adminOn, s, acts[0]), acts[1..]))
  }

  function After(adminOn: bool, s: System, acts: seq<Action>): System
    requires Runs(adminOn, s, acts)
    decreases |acts|
  {
    if acts == [] then s else After(adminOn, Next(adminOn, s, acts[0]), acts[1..])
  }

  function Initial(row: Option<Row>): System { System(0, row, map[], map[], {}, map[], []) }

  // ---------------------------------------------------------------------------------------
  // Fail closed
  // ---------------------------------------------------------------------------------------

  // A revocation leaves nothing that was stored before it, now and ever after.
  ghost predicate SweptBy(s: System, e: Edit) {
    forall token :: token in s.live && token.kind in e.revokedAt ==> e.revokedAt[token.kind] < s.live[token].storedAt
  }

  // An edit revokes only what its rule asks for, refresh tokens first ...
  predicate RevokesInOrder(now: nat, e: Edit) {
    && (forall kind :: kind in e.revokedAt ==> Asks(e, kind) && e.revokedAt[kind] < now)
    && (AdminSessions in e.revokedAt ==>
          RefreshTokens in e.revokedAt && e.revokedAt[RefreshTokens] < e.revokedAt[AdminSessions])
  }

  // ... and commits after all of it.
  predicate CommitsLast(adminOn: bool, now: nat, e: Edit) {
    e.phase.Committed? ==>
      && e.phase.at < now
      && (forall kind :: kind in e.revokedAt ==> e.revokedAt[kind] < e.phase.at)
      && (Asks(e, RefreshTokens) ==> RefreshTokens in e.revokedAt)
      && (Asks(e, AdminSessions) && adminOn ==> AdminSessions in e.revokedAt)
  }

  predicate Orderly(adminOn: bool, now: nat, e: Edit) {
    RevokesInOrder(now, e) && CommitsLast(adminOn, now, e)
  }

  ghost predicate EditsAgree(adminOn: bool, s: System) {
    forall id :: id in s.edits ==> Orderly(adminOn, s.now, s.edits[id]) && SweptBy(s, s.edits[id])
  }

  ghost predicate TimesAgree(adminOn: bool, s: System) {
    && (forall token :: token in s.live ==> s.live[token].login.readAt < s.live[token].storedAt < s.now)
    && (forall token :: token in s.logins ==> s.logins[token].readAt < s.now)
    && (!adminOn ==> forall token :: token in s.live || token in s.logins ==> token.kind.RefreshTokens?)
  }

  ghost predicate Inv(adminOn: bool, s: System) {
    EditsAgree(adminOn, s) && TimesAgree(adminOn, s)
  }

  lemma RevokesInOrderNext(adminOn: bool, s: System, a: Action, id: Id)
    requires Enabled(adminOn, s, a) && id in Next(adminOn, s, a).edits
    requires id in s.edits ==> RevokesInOrder(s.now, s.edits[id])
    ensures RevokesInOrder(s.now + 1, Next(adminOn, s, a).edits[id])
  {
  }

  lemma CommitsLastNext(adminOn: bool, s: System, a: Action, id: Id)
    requires Enabled(adminOn, s, a) && id in Next(adminOn, s, a).edits
    requires id in s.edits ==> RevokesInOrder(s.now, s.edits[id]) && CommitsLast(adminOn, s.now, s.edits[id])
    ensures CommitsLast(adminOn, s.now + 1, Next(adminOn, s, a).edits[id])
  {
  }

  lemma SweptByNext(adminOn: bool, s: System, a: Action, id: Id)
    requires Enabled(adminOn, s, a) && id in Next(adminOn, s, a).edits
    requires id in s.edits ==> SweptBy(s, s.edits[id]) && Orderly(adminOn, s.now, s.edits[id])
    ensures SweptBy(Next(adminOn, s, a), Next(adminOn, s, a).edits[id])
  {
  }

  lemma EditsAgreeNext(adminOn: bool, s: System, a: Action)
    requires EditsAgree(adminOn, s) && Enabled(adminOn, s, a)
    ensures EditsAgree(adminOn, Next(adminOn, s, a))
  {
    hide RevokesInOrder, CommitsLast, SweptBy, Effect;
    var t := Next(adminOn, s, a);
    forall id | id in t.edits ensures Orderly(adminOn, t.now, t.edits[id]) && SweptBy(t, t.edits[id]) {
      RevokesInOrderNext(adminOn, s, a, id);
      CommitsLastNext(adminOn, s, a, id);
      SweptByNext(adminOn, s, a, id);
    }
  }

  lemma InvNext(adminOn: bool, s: System, a: Action)
    requires Inv(adminOn, s) && Enabled(adminOn, s, a)
    ensures Inv(adminOn, Next(adminOn, s, a))
  {
    EditsAgreeNext(adminOn, s, a);
  }

  lemma {:induction false} InvAfter(adminOn: bool, s: System, acts: seq<Action>)
    requires Inv(adminOn, s) && Runs(adminOn, s, acts)
    ensures Inv(adminOn, After(adminOn, s, acts))
    decreases |acts|
  {
    if acts != [] {
      InvNext(adminOn, s, acts[0]);
      InvAfter(adminOn, Next(adminOn, s, acts[0]), acts[1..]);
    }
  }

  // The job deletes the row it read, or takes a right or the password of it away.
  predicate TakesAway(e: Edit) {
    e.job.Delete? || Lost(e.before, Applied(e.before, e.job.changes))
  }

  // The commit took something from the row it met.
  predicate TookAway(e: Edit) {
    e.phase.Committed? && e.phase.seen.Some? && !Keeps(e.phase.seen.value, Saved(e.phase.seen, e))
  }

  lemma TookAwayIsJudged(e: Edit)
    requires TookAway(e)
    ensures TakesAway(e)
  {
    if e.job.Update? {
      LossIsJudged(e.before, e.job.changes, e.phase.seen.value);
    }
  }

  // Whatever fails and whatever runs beside it: a commit that takes something away, from the row the
  // edit read or from the row it met, comes after the edit's own revocation of every configured store,
  // and from each of these revocations on -- at the commit and at any later moment -- every live
  // credential of that kind was stored after it.
  lemma FailsClosed(adminOn: bool, row: Option<Row>, acts: seq<Action>, id: Id)
    requires Runs(adminOn, Initial(row), acts) && id in After(adminOn, Initial(row), acts).edits
    ensures
      var s := After(adminOn, Initial(row), acts);
      var e := s.edits[id];
      && (e.phase.Committed? && (TakesAway(e) || TookAway(e)) ==>
            && RefreshTokens in e.revokedAt && (adminOn ==> AdminSessions in e.revokedAt)
            && (forall kind :: kind in e.revokedAt ==> e.revokedAt[kind] < e.phase.at)
            && (forall token :: token in s.live ==>
                  token.kind in e.revokedAt && e.revokedAt[token.kind] < s.live[token].storedAt))
      && (forall token :: token in s.live && token.kind in e.revokedAt ==>
            e.revokedAt[token.kind] < s.live[token].storedAt)
  {
    InvAfter(adminOn, Initial(row), acts);
    var s := After(adminOn, Initial(row), acts);
    var e := s.edits[id];
    assert Orderly(adminOn, s.now, e) && SweptBy(s, e);
    if TookAway(e) {
      TookAwayIsJudged(e);
    }
    if e.phase.Committed? && TakesAway(e) {
      assert Asks(e, RefreshTokens) && Asks(e, AdminSessions);
      forall token | token in s.live ensures token.kind in e.revokedAt {
        assert token.kind == RefreshTokens || token.kind == AdminSessions;
      }
    }
  }

  // The request deactivates an active user, takes superuser rights or changes the password hash.
  predicate Takes(row: Row, c: Changes) {
    || (row.isActive && c.isActive == Some(false))
    || (row.isSuperuser && c.isSuperuser == Some(false))
    || (c.hash.Some? && c.hash.value != row.hash)
  }

  // Field by field: an edit that never revoked, yet committed, left the user active if it was active,
  // a superuser if it was one, and with the same password, whatever else it wrote; an edit that does
  // none of the three, to the row it read, is never made to revoke anything.
  lemma RevokesIffTakes(adminOn: bool, row: Option<Row>, acts: seq<Action>, id: Id)
    requires Runs(adminOn, Initial(row), acts) && id in After(adminOn, Initial(row), acts).edits
    ensures
      var e := After(adminOn, Initial(row), acts).edits[id];
      && (e.job.Update? && e.revokedAt != map[] ==> Takes(e.before, e.job.changes))
      && (e.phase.Committed? && (e.job.Delete? || Takes(e.before, e.job.changes)) ==>
            RefreshTokens in e.revokedAt && (adminOn ==> AdminSessions in e.revokedAt))
      && (e.phase.Committed? && e.job.Update? && e.revokedAt == map[] && e.phase.seen.Some? ==>
            var was := e.phase.seen.value;
            var now := Saved(e.phase.seen, e).value;
            (was.isActive ==> now.isActive) && (was.isSuperuser ==> now.isSuperuser) && was.hash == now.hash)
  {
    InvAfter(adminOn, Initial(row), acts);
    var s := After(adminOn, Initial(row), acts);
    var e := s.edits[id];
    assert Orderly(adminOn, s.now, e);
    if e.job.Update? && e.revokedAt != map[] {
      var kind :| kind in e.revokedAt;
      assert Asks(e, kind);
    }
  }

  // What the committed edits write, one after the other.
  function Replay(s: System, row: Option<Row>, commits: seq<Id>): Option<Row>
    requires forall i :: 0 <= i < |commits| ==> commits[i] in s.edits
  {
    if commits == [] then row
    else Saved(Replay(s, row, commits[..|commits| - 1]), s.edits[commits[|commits| - 1]])
  }

  ghost predicate RowIsReplay(s: System, row: Option<Row>) {
    && (forall i :: 0 <= i < |s.commits| ==> s.commits[i] in s.edits)
    && (forall id :: id in s.edits ==> (s.edits[id].phase.Committed? <==> id in s.commits))
    && s.row == Replay(s, row, s.commits)
  }

  predicate SameWrite(e: Edit, f: Edit) {
    e.job == f.job && e.before == f.before
  }

  lemma {:induction false} ReplaySame(s: System, t: System, row: Option<Row>, commits: seq<Id>)
    requires forall i :: 0 <= i < |commits| ==> commits[i] in s.edits && commits[i] in t.edits
    requires forall i :: 0 <= i < |commits| ==> SameWrite(s.edits[commits[i]], t.edits[commits[i]])
    ensures Replay(s, row, commits) == Replay(t, row, commits)
  {
    if commits != [] {
      ReplaySame(s, t, row, commits[..|commits| - 1]);
    }
  }

  lemma SameWrites(adminOn: bool, s: System, a: Action)
    requires Enabled(adminOn, s, a)
    ensures forall id :: id in s.edits ==>
              id in Next(adminOn, s, a).edits && SameWrite(s.edits[id], Next(adminOn, s, a).edits[id])
  {
  }

  lemma CommitsNext(adminOn: bool, s: System, a: Action, id: Id)
    requires Enabled(adminOn, s, a) && id in Next(adminOn, s, a).edits
    requires id in s.edits ==> (s.edits[id].phase.Committed? <==> id in s.commits)
    requires id !in s.edits ==> id !in s.commits
    ensures Next(adminOn, s, a).edits[id].phase.Committed? <==> id in Next(adminOn, s, a).commits
  {
  }

  lemma RowIsReplayNext(adminOn: bool, s: System, a: Action, row: Option<Row>)
    requires RowIsReplay(s, row) && Enabled(adminOn, s, a)
    ensures RowIsReplay(Next(adminOn, s, a), row)
  {
    var t := Next(adminOn, s, a);
    SameWrites(adminOn, s, a);
    ReplaySame(s, t, row, s.commits);
    forall id | id in t.edits ensures t.edits[id].phase.Committed? <==> id in t.commits {
      CommitsNext(adminOn, s, a, id);
    }
    if a.Commit? {
      assert t.commits[..|t.commits| - 1] == s.commits;
      assert t.row == Replay(t, row, t.commits);
    }
  }

  // An edit that met a failure has no part in the row: the row is what the committed edits wrote
  // over the first one, in the order of their commits, each the fields it changed.
  lemma {:induction false} RowIsCommitted(adminOn: bool, s: System, acts: seq<Action>, row: Option<Row>)
    requires RowIsReplay(s, row) && Runs(adminOn, s, acts)
    ensures RowIsReplay(After(adminOn, s, acts), row)
    decreases |acts|
  {
    if acts != [] {
      RowIsReplayNext(adminOn, s, acts[0], row);
      RowIsCommitted(adminOn, Next(adminOn, s, acts[0]), acts[1..], row);
    }
  }

  // ---------------------------------------------------------------------------------------
  // No credential outlives the rights it was issued under
  // ---------------------------------------------------------------------------------------

  // The user still exists and has kept every right and the password of the earlier row.
  predicate Keeps(earlier: Row, row: Option<Row>) {
    row.Some? && !Lost(earlier, row.value)
  }

  // The edit took the login's rights away, and the login read the user before the commit.
  predicate TookFrom(e: Edit, kind: Kind, login: Login) {
    && e.phase.Committed? && kind in e.revokedAt && login.readAt < e.phase.at
    && Keeps(login.row, e.phase.seen) && !Keeps(login.row, Saved(e.phase.seen, e))
  }

  // The login overlapped one edit between that edit's revocation and its commit, and this is the
  // edit that took its rights away.
  ghost predicate Overlapped(s: System, token: Token)
    requires token in s.live
  {
    exists id :: id in s.edits && TookFrom(s.edits[id], token.kind, s.live[token].login)
                 && s.edits[id].revokedAt[token.kind] < s.live[token].storedAt
  }

  ghost predicate OverlapsEdit(s: System, token: Token)
    requires token in s.logins
  {
    exists id :: id in s.edits && TookFrom(s.edits[id], token.kind, s.logins[token])
  }

  ghost predicate LiveRightful(s: System) {
    forall token :: token in s.live ==> Keeps(s.live[token].login.row, s.row) || Overlapped(s, token)
  }

  ghost predicate LoginsRightful(s: System) {
    forall token :: token in s.logins ==> Keeps(s.logins[token].row, s.row) || OverlapsEdit(s, token)
  }

  lemma CommitTakes(adminOn: bool, s: System, id: Id, kind: Kind, login: Login)
    requires Inv(adminOn, s) && Enabled(adminOn, s, Commit(id))
    requires Keeps(login.row, s.row) && login.readAt < s.now && (kind.AdminSessions? ==> adminOn)
    requires !Keeps(login.row, Saved(s.row, s.edits[id]))
    ensures TookFrom(Next(adminOn, s, Commit(id)).edits[id], kind, login)
  {
    var e := s.edits[id];
    if e.job.Update? {
      LossIsJudged(e.before, e.job.changes, s.row.value);
    }
  }

  // An edit that is over does not change.
  lemma CommittedStays(adminOn: bool, s: System, a: Action, id: Id)
    requires Enabled(adminOn, s, a) && id in s.edits && s.edits[id].phase.Committed?
    ensures id in Next(adminOn, s, a).edits && Next(adminOn, s, a).edits[id] == s.edits[id]
  {
  }

  lemma OverlapStays(adminOn: bool, s: System, a: Action, token: Token)
    requires Enabled(adminOn, s, a) && token in s.live && Overlapped(s, token)
    requires token in Next(adminOn, s, a).live && Next(adminOn, s, a).live[token] == s.live[token]
    ensures Overlapped(Next(adminOn, s, a), token)
  {
    hide Effect;
    var id :| id in s.edits && TookFrom(s.edits[id], token.kind, s.live[token].login)
              && s.edits[id].revokedAt[token.kind] < s.live[token].storedAt;
    CommittedStays(adminOn, s, a, id);
  }

  // A login that overlapped a committed edit stores its credential after that edit's revocation.
  lemma StoredOverlap(adminOn: bool, s: System, token: Token)
    requires EditsAgree(adminOn, s) && Enabled(adminOn, s, Store(token)) && OverlapsEdit(s, token)
    ensures Overlapped(Next(adminOn, s, Store(token)), token)
  {
    var id :| id in s.edits && TookFrom(s.edits[id], token.kind, s.logins[token]);
    assert Orderly(adminOn, s.now, s.edits[id]);
    CommittedStays(adminOn, s, Store(token), id);
  }

  lemma CommitOverlaps(adminOn: bool, s: System, id: Id, token: Token)
    requires Inv(adminOn, s) && Enabled(adminOn, s, Commit(id))
    requires token in s.live && Keeps(s.live[token].login.row, s.row)
    requires !Keeps(s.live[token].login.row, Saved(s.row, s.edits[id]))
    ensures Overlapped(Next(adminOn, s, Commit(id)), token)
  {
    CommitTakes(adminOn, s, id, token.kind, s.live[token].login);
    assert SweptBy(s, s.edits[id]);
  }

  lemma LiveNext(adminOn: bool, s: System, a: Action, token: Token)
    requires Enabled(adminOn, s, a) && token in Next(adminOn, s, a).live && a != Store(token)
    ensures token in s.live && Next(adminOn, s, a).live[token] == s.live[token]
    ensures Next(adminOn, s, a).row == if a.Commit? then Saved(s.row, s.edits[a.id]) else s.row
  {
  }

  lemma StoreNext(adminOn: bool, s: System, token: Token)
    requires Enabled(adminOn, s, Store(token))
    ensures Next(adminOn, s, Store(token)).live[token].login == s.logins[token]
            && Next(adminOn, s, Store(token)).row == s.row
  {
  }

  lemma LiveRightfulNext(adminOn: bool, s: System, a: Action)
    requires Inv(adminOn, s) && LiveRightful(s) && LoginsRightful(s) && Enabled(adminOn, s, a)
    ensures LiveRightful(Next(adminOn, s, a))
  {
    hide Effect, Overlapped, OverlapsEdit, Keeps, Saved;
    var t := Next(adminOn, s, a);
    forall token | token in t.live ensures Keeps(t.live[token].login.row, t.row) || Overlapped(t, token) {
      if a == Store(token) {
        StoreNext(adminOn, s, token);
        if OverlapsEdit(s, token) {
          StoredOverlap(adminOn, s, token);
        }
      } else {
        LiveNext(adminOn, s, a, token);
        if Overlapped(s, token) {
          OverlapStays(adminOn, s, a, token);
        } else if a.Commit? && !Keeps(s.live[token].login.row, Saved(s.row, s.edits[a.id])) {
          CommitOverlaps(adminOn, s, a.id, token);
        }
      }
    }
  }

  lemma LoginsRightfulNext(adminOn: bool, s: System, a: Action)
    requires Inv(adminOn, s) && LoginsRightful(s) && Enabled(adminOn, s, a)
    ensures LoginsRightful(Next(adminOn, s, a))
  {
    var t := Next(adminOn, s, a);
    forall token | token in t.logins ensures Keeps(t.logins[token].row, t.row) || OverlapsEdit(t, token) {
      if token in s.logins {
        if !Keeps(s.logins[token].row, s.row) {
          var id :| id in s.edits && TookFrom(s.edits[id], token.kind, s.logins[token]);
          CommittedStays(adminOn, s, a, id);
        } else if a.Commit? && !Keeps(s.logins[token].row, t.row) {
          CommitTakes(adminOn, s, a.id, token.kind, s.logins[token]);
        }
      }
    }
  }

  // In every run, however edits, logins and failures interleave, a live credential belongs to a user
  // who still exists and has kept every right and the password its login read, unless its
  // login overlapped the very edit that took them: it read the user before that edit's commit and
  // stored the credential after that edit's revocation.
  lemma {:induction false} RightsHold(adminOn: bool, s: System, acts: seq<Action>)
    requires Inv(adminOn, s) && LiveRightful(s) && LoginsRightful(s)
    requires Runs(adminOn, s, acts)
    ensures LiveRightful(After(adminOn, s, acts)) && LoginsRightful(After(adminOn, s, acts))
    decreases |acts|
  {
    if acts != [] {
      InvNext(adminOn, s, acts[0]);
      LiveRightfulNext(adminOn, s, acts[0]);
      LoginsRightfulNext(adminOn, s, acts[0]);
      RightsHold(adminOn, Next(adminOn, s, acts[0]), acts[1..]);
    }
  }

  lemma Play(adminOn: bool, s: System, a: Action, acts: seq<Action>)
    requires Enabled(adminOn, s, a) && Runs(adminOn, Next(adminOn, s, a), acts)
    ensures Runs(adminOn, s, [a] + acts)
    ensures After(adminOn, s, [a] + acts) == After(adminOn, Next(adminOn, s, a), acts)
  {
    assert ([a] + acts)[1..] == acts;
  }

  // A login between the revocation and the commit keeps its credential, for every user and
  // every edit that takes something away.
  lemma OverlappedLoginSurvives(row: Row, job: Job, token: Token) returns (acts: seq<Action>)
    requires row.isActive && Asked(job, row) == DELETED && token.kind.RefreshTokens?
    ensures Runs(false, Initial(Some(row)), acts)
    ensures
      var s := After(false, Initial(Some(row)), acts);
      token in s.live && s.live[token].login.row == row && !Keeps(row, s.row) && Overlapped(s, token)
  {
    var s0 := Initial(Some(row));
    var s1 := Next(false, s0, Begin(0, job));
    var s2 := Next(false, s1, Revoke(0, RefreshTokens, NoFault));
    var s3 := Next(false, s2, Read(token));
    var s4 := Next(false, s3, Store(token));
    var s5 := Next(false, s4, Commit(0));
    assert TookFrom(s5.edits[0], token.kind, s5.live[token].login);
    acts := [];
    Play(false, s4, Commit(0), acts);
    acts := [Commit(0)] + acts;
    Play(false, s3, Store(token), acts);
    acts := [Store(token)] + acts;
    Play(false, s2, Read(token), acts);
    acts := [Read(token)] + acts;
    Play(false, s1, Revoke(0, RefreshTokens, NoFault), acts);
    acts := [Revoke(0, RefreshTokens, NoFault)] + acts;
    Play(false, s0, Begin(0, job), acts);
    acts := [Begin(0, job)] + acts;
  }
}

// The service over the two stores and the committed rows.
module UserServices {
  import opened Basics
  import opened UserAccess
  import opened UserRuns
  import R = RefreshStore
  import A = AdminSessionStoreSpec
  import RefreshTokens
  import AdminSessionClasses

  // The two clocks of one call, and where Redis fails in each of its two calls.
  datatype Weather = Weather(seconds: R.Time, epoch: real, refresh: Fault, admin: Fault, commitFails: bool)

  function RefreshAfter(s: R.Store, ttl: R.Seconds, user: string, asked: bool, w: Weather): R.Store {
    if asked && !w.refresh.BeforeEffect? then R.RevokeUser(s, ttl, w.seconds, user) else s
  }

  function AdminAfter(s: A.Store, user: string, asked: bool, w: Weather): A.Store {
    if asked && !w.admin.BeforeEffect? then A.RevokeUser(w.epoch, s, user) else s
  }

  // Refresh store first; a missing store is skipped; a failure ends the call.
  method RevokeUserAccess(refresh: RefreshTokens.RefreshTokenStore?, admin: AdminSessionClasses.AdminSessionStore?,
                          user: string, what: Revocation, w: Weather)
    returns (ok: bool)
    modifies refresh, admin
    ensures refresh != null ==>
      refresh.Contents() == RefreshAfter(old(refresh.Contents()), refresh.ttl, user, what.refresh, w)
    ensures admin != null ==>
      admin.Contents() == AdminAfter(old(admin.Contents()), user,
                                     what.adminSessions && (!what.refresh || refresh == null || w.refresh.NoFault?), w)
    ensures ok <==>
      && (what.refresh && refresh != null ==> w.refresh.NoFault?)
      && (what.adminSessions && admin != null ==> w.admin.NoFault?)
  {
    if what.refresh && refresh != null {
      if w.refresh.BeforeEffect? {
        return false;
      }
      refresh.RevokeUser(w.seconds, user);
      if w.refresh.AfterEffect? {
        return false;
      }
    }
    if what.adminSessions && admin != null {
      if w.admin.BeforeEffect? {
        return false;
      }
      admin.RevokeSessions(w.epoch, user);
      if w.admin.AfterEffect? {
        return false;
      }
    }
    return true;
  }

  datatype Principal = Principal(id: string, isSuperuser: bool)

  datatype Outcome = Done(row: Row) | Deleted | Forbidden | PrivilegedField | NotFound | Failed

  class UserService {
    const refreshStore: RefreshTokens.RefreshTokenStore
    const adminSessions: AdminSessionClasses.AdminSessionStore?
    var rows: map<string, Row>

    constructor (refreshStore: RefreshTokens.RefreshTokenStore, adminSessions: AdminSessionClasses.AdminSessionStore?,
                 rows: map<string, Row>)
      ensures this.refreshStore == refreshStore && this.adminSessions == adminSessions && this.rows == rows
    {
      this.refreshStore, this.adminSessions, this.rows := refreshStore, adminSessions, rows;
    }

    // Both stores have forgotten the user.
    twostate predicate RevokedEverywhere(user: string, w: Weather)
      reads refreshStore, adminSessions
    {
      && refreshStore.Contents() == R.RevokeUser(old(refreshStore.Contents()), refreshStore.ttl, w.seconds, user)
      && (adminSessions != null ==>
            adminSessions.Contents() == A.RevokeUser(w.epoch, old(adminSessions.Contents()), user))
    }

    twostate predicate StoresUntouched()
      reads refreshStore, adminSessions
    {
      && refreshStore.Contents() == old(refreshStore.Contents())
      && (adminSessions != null ==> adminSessions.Contents() == old(adminSessions.Contents()))
    }

    // PATCH /users/{id}: judge, revoke, update, commit.
    method UpdateUser(user: string, changes: Changes, principal: Principal, w: Weather) returns (r: Outcome)
      modifies this, refreshStore, adminSessions
      ensures r.Forbidden? <==> !principal.isSuperuser && user != principal.id
      ensures r.PrivilegedField? <==>
        !principal.isSuperuser && user == principal.id && (changes.isActive.Some? || changes.isSuperuser.Some?)
      ensures !r.Forbidden? && !r.PrivilegedField? ==> (r.NotFound? <==> user !in old(rows))
      ensures r.Forbidden? || r.PrivilegedField? || r.NotFound? ==> StoresUntouched()
      ensures r.Done? ==>
        && user in old(rows) && r.row == Applied(old(rows)[user], changes) && rows == old(rows)[user := r.row]
        && (if Lost(old(rows)[user], r.row) then RevokedEverywhere(user, w) else StoresUntouched())
      ensures r.Done? ==>
        var row := old(rows)[user];
        && r.row.email == (if changes.email.Some? then changes.email.value else row.email)
        && r.row.isActive == (if changes.isActive.Some? then changes.isActive.value else row.isActive)
        && r.row.isSuperuser == (if changes.isSuperuser.Some? then changes.isSuperuser.value else row.isSuperuser)
        && r.row.hash == (if changes.hash.Some? then changes.hash.value else row.hash)
        && (if Takes(row, changes) then RevokedEverywhere(user, w) else StoresUntouched())
      ensures !r.Done? ==> rows == old(rows)
      ensures r.Failed? ==> w.commitFails || !w.refresh.NoFault? || !w.admin.NoFault?
      ensures !r.Deleted?
    {
      if !principal.isSuperuser {
        if user != principal.id {
          return Forbidden;
        }
        if changes.isActive.Some? || changes.isSuperuser.Some? {
          return PrivilegedField;
        }
      }
      if user !in rows {
        return NotFound;
      }
      var before := rows[user];
      var after := Applied(before, changes);
      var revoked := RevokeUserAccess(refreshStore, adminSessions, user, RevocationFor(before, after), w);
      if !revoked || w.commitFails {
        return Failed;
      }
      rows := rows[user := after];
      return Done(after);
    }

    // DELETE /users/{id}: the deletion is pending while the stores are revoked.
    method DeleteUser(user: string, w: Weather) returns (r: Outcome)
      modifies this, refreshStore, adminSessions
      ensures r.NotFound? <==> user !in old(rows)
      ensures r.NotFound? ==> StoresUntouched()
      ensures r.Deleted? ==> rows == old(rows) - {user} && RevokedEverywhere(user, w)
      ensures !r.Deleted? ==> rows == old(rows)
      ensures r.Failed? ==> w.commitFails || !w.refresh.NoFault? || !w.admin.NoFault?
      ensures r.NotFound? || r.Deleted? || r.Failed?
    {
      if user !in rows {
        return NotFound;
      }
      var pending := rows - {user};
      var revoked := RevokeUserAccess(refreshStore, adminSessions, user, DELETED, w);
      if !revoked || w.commitFails {
        return Failed;
      }
      rows := pending;
      return Deleted;
    }
  }
}

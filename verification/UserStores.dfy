// One user's logins, edits and deletions over the two stores themselves: what can still be used in
// a store is a live credential of the user's run. Each store method is one step here; what its
// separate Redis calls leave open is in RefreshRevocations and AdminSessionRevocations.

module RefreshTracking {
  import opened RefreshStore

  datatype Op =
    | RegisterOne(jti: Jti, sub: Sub, fam: Fam)
    | ConsumeOne(jti: Jti)
    | RevokeOne(fam: Fam)
    | RevokeAll(sub: Sub)

  function Do(s: Store, ttl: Seconds, now: Time, op: Op): Store {
    match op
    case RegisterOne(jti, sub, fam) => Register(s, ttl, now, jti, sub, fam)
    case ConsumeOne(jti) => Consume(s, jti)
    case RevokeOne(fam) => RevokeFamily(s, ttl, now, fam)
    case RevokeAll(sub) => RevokeUser(s, ttl, now, sub)
  }

  predicate Bounded(s: Store, ttl: Seconds, now: Time) {
    && (forall j :: j in s.tokens ==> s.tokens[j].exp <= now + ttl)
    && (forall u :: u in s.index ==> s.index[u].exp <= now + ttl)
    && (forall f :: f in s.revoked ==> s.revoked[f] <= now + ttl)
  }

  // Expired, or under a marker that expires no earlier: unusable from now on.
  predicate Over(s: Store, now: Time, jti: Jti)
    requires jti in s.tokens
  {
    s.tokens[jti].exp <= now || (s.tokens[jti].fam in s.revoked && s.tokens[jti].exp <= s.revoked[s.tokens[jti].fam])
  }

  ghost predicate Kept(s: Store, ttl: Seconds, now: Time) {
    Bounded(s, ttl, now) && forall j :: j in s.tokens ==> Covered(s, now, j)
  }

  lemma CoveredAfter(s: Store, ttl: Seconds, now: Time, op: Op, j: Jti)
    requires Bounded(s, ttl, now) && j in Do(s, ttl, now, op).tokens
    requires j in s.tokens ==> Covered(s, now, j)
    ensures Covered(Do(s, ttl, now, op), now, j)
  {
  }

  lemma KeptAfter(s: Store, ttl: Seconds, now: Time, op: Op)
    requires Kept(s, ttl, now)
    ensures Kept(Do(s, ttl, now, op), ttl, now)
  {
    forall j | j in Do(s, ttl, now, op).tokens ensures Covered(Do(s, ttl, now, op), now, j) {
      CoveredAfter(s, ttl, now, op, j);
    }
  }

  lemma KeptLater(s: Store, ttl: Seconds, now: Time, later: Time)
    requires Kept(s, ttl, now) && now <= later
    ensures Kept(s, ttl, later)
  {
    forall j | j in s.tokens ensures Covered(s, later, j) {
      assert Covered(s, now, j);
    }
  }

  // What is over stays over, whatever happens to the store except a registration of the same jti.
  lemma OverStays(s: Store, ttl: Seconds, now: Time, op: Op, j: Jti)
    requires Bounded(s, ttl, now) && j in s.tokens && Over(s, now, j)
    requires j in Do(s, ttl, now, op).tokens && !(op.RegisterOne? && op.jti == j)
    ensures Over(Do(s, ttl, now, op), now, j)
  {
  }

  // Revoking the user puts every token of the user over.
  lemma RevokedAreOver(s: Store, ttl: Seconds, now: Time, sub: Sub, j: Jti)
    requires Kept(s, ttl, now) && j in s.tokens && s.tokens[j].sub == sub
    ensures Over(RevokeUser(s, ttl, now, sub), now, j)
  {
    assert Covered(s, now, j);
  }
}

module SessionTracking {
  import opened Basics
  import opened AdminSessionStoreSpec
  import opened AdminSessionRuns

  // `created` is what the request loaded with the session.
  datatype Op =
    | CreateOne(sid: Sid, data: Data)
    | UpdateOne(sid: Sid, data: Data, created: real)
    | TouchOne(sid: Sid, created: real)
    | DeleteOne(sid: Sid, owner: Option<User>)
    | LoadOne(sid: Sid)
    | RevokeAll(user: User)

  predicate Legal(st: Store, now: real, op: Op) {
    (op.UpdateOne? || op.TouchOne?) ==>
      op.created <= now && (op.sid in st.sessions ==> op.created == st.sessions[op.sid].created)
  }

  function Do(cfg: Config, st: Store, now: real, op: Op): Store {
    match op
    case CreateOne(sid, data) => Save(cfg, now, st, sid, data, now, true)
    case UpdateOne(sid, data, created) => Save(cfg, now, st, sid, data, created, false)
    case TouchOne(sid, created) => Touch(cfg, now, st, sid, created)
    case DeleteOne(sid, owner) => Delete(st, sid, owner)
    case LoadOne(sid) => Load(cfg, now, st, sid).0
    case RevokeAll(user) => RevokeUser(now, st, user)
  }

  lemma IndexedAfter(cfg: Config, st: Store, now: real, op: Op)
    requires AllIndexed(cfg, now, st) && Legal(st, now, op)
    ensures AllIndexed(cfg, now, Do(cfg, st, now, op))
  {
    match op
    case CreateOne(sid, data) => SaveKeepsIndex(cfg, now, st, sid, data, now, true);
    case UpdateOne(sid, data, created) => SaveKeepsIndex(cfg, now, st, sid, data, created, false);
    case TouchOne(sid, created) => TouchKeepsIndex(cfg, now, st, sid, created);
    case DeleteOne(sid, owner) => DeleteKeepsIndex(cfg, now, st, sid, owner);
    case LoadOne(sid) =>
      if Live(st, now, sid) {
        DeleteKeepsIndex(cfg, now, st, sid, UserOf(st.sessions[sid].data));
      }
    case RevokeAll(user) => RevokeKeepsIndex(cfg, now, st, user);
  }

  lemma IndexedLater(cfg: Config, st: Store, now: real, later: real)
    requires AllIndexed(cfg, now, st) && now <= later
    ensures AllIndexed(cfg, later, st)
  {
    forall sid | sid in st.sessions ensures Indexed(cfg, later, st, sid) {
      assert Indexed(cfg, now, st, sid);
    }
  }

  predicate Owned(st: Store, now: real, sid: Sid, user: User) {
    Live(st, now, sid) && UserOf(st.sessions[sid].data) == Some(user)
  }

  // An id passes to the user only where the operation says so: a session that is not the user's
  // becomes the user's by being created, and logging in creates.
  predicate GivesTo(st: Store, now: real, op: Op, user: User) {
    || (op.CreateOne? && UserOf(op.data) == Some(user))
    || (op.UpdateOne? && UserOf(op.data) == Some(user) && !Owned(st, now, op.sid, user))
  }

  lemma OwnedBefore(cfg: Config, st: Store, now: real, op: Op, user: User, sid: Sid)
    requires !GivesTo(st, now, op, user) && Owned(Do(cfg, st, now, op), now, sid, user)
    ensures Owned(st, now, sid, user)
  {
  }

  lemma OwnedAfterCreate(cfg: Config, st: Store, now: real, op: Op, user: User, sid: Sid)
    requires op.CreateOne? && Owned(Do(cfg, st, now, op), now, sid, user)
    ensures sid == op.sid || Owned(st, now, sid, user)
  {
  }

  lemma NoneOwnedAfterRevoke(cfg: Config, st: Store, now: real, user: User, sid: Sid)
    requires AllIndexed(cfg, now, st)
    ensures !Owned(RevokeUser(now, st, user), now, sid, user)
  {
    if sid in st.sessions {
      assert Indexed(cfg, now, st, sid);
    }
  }
}

module UserStores {
  import opened Basics
  import opened UserAccess
  import opened UserRuns
  import R = RefreshStore
  import A = AdminSessionStoreSpec
  import AdminSessionRuns
  import RefreshTracking
  import SessionTracking

  datatype Config = Config(adminOn: bool, ttl: R.Seconds, sessions: A.Config, user: string)

  datatype World = World(seconds: R.Time, epoch: real, refresh: R.Store, admin: A.Store, user: System)

  // A step of the user's run, with the family or the session a login stores; or anything else that
  // happens in the stores -- consuming tokens, logging out, touching sessions, other users.
  datatype Event =
    | Wait(seconds: R.Time, epoch: real)
    | Own(a: Action, fam: R.Fam, data: A.Data)
    | InRefresh(op: RefreshTracking.Op)
    | InAdmin(command: SessionTracking.Op)

  predicate Possible(cfg: Config, w: World, e: Event) {
    match e
    case Wait(seconds, epoch) => w.seconds <= seconds && w.epoch <= epoch
    case Own(a, _, data) =>
      Enabled(cfg.adminOn, w.user, a) && !a.Expire?
      && (a.Store? && a.token.kind.AdminSessions? ==> A.UserOf(data) == Some(cfg.user))
    case InRefresh(op) => !(op.RegisterOne? && op.sub == cfg.user)
    case InAdmin(op) =>
      SessionTracking.Legal(w.admin, w.epoch, op) && !SessionTracking.GivesTo(w.admin, w.epoch, op, cfg.user)
  }

  predicate Effective(a: Action, kind: Kind) {
    a.Revoke? && a.kind == kind && !a.fault.BeforeEffect?
  }

  function RefreshNext(cfg: Config, w: World, e: Event): R.Store {
    match e
    case Wait(_, _) => w.refresh
    case Own(a, fam, _) =>
      if a.Store? && a.token.kind.RefreshTokens?
      then RefreshTracking.Do(w.refresh, cfg.ttl, w.seconds, RefreshTracking.RegisterOne(a.token.id, cfg.user, fam))
      else if Effective(a, RefreshTokens)
      then RefreshTracking.Do(w.refresh, cfg.ttl, w.seconds, RefreshTracking.RevokeAll(cfg.user))
      else w.refresh
    case InRefresh(op) => RefreshTracking.Do(w.refresh, cfg.ttl, w.seconds, op)
    case InAdmin(_) => w.refresh
  }

  function AdminNext(cfg: Config, w: World, e: Event): A.Store {
    match e
    case Wait(_, _) => w.admin
    case Own(a, _, data) =>
      if a.Store? && a.token.kind.AdminSessions?
      then SessionTracking.Do(cfg.sessions, w.admin, w.epoch, SessionTracking.CreateOne(a.token.id, data))
      else if Effective(a, AdminSessions)
      then SessionTracking.Do(cfg.sessions, w.admin, w.epoch, SessionTracking.RevokeAll(cfg.user))
      else w.admin
    case InRefresh(_) => w.admin
    case InAdmin(op) => SessionTracking.Do(cfg.sessions, w.admin, w.epoch, op)
  }

  function Step(cfg: Config, w: World, e: Event): World
    requires Possible(cfg, w, e)
  {
    World(if e.Wait? then e.seconds else w.seconds, if e.Wait? then e.epoch else w.epoch,
          RefreshNext(cfg, w, e), AdminNext(cfg, w, e),
          if e.Own? then Next(cfg.adminOn, w.user, e.a) else w.user)
  }

  predicate Happens(cfg: Config, w: World, events: seq<Event>)
    decreases |events|
  {
    events == [] || (Possible(cfg, w, events[0]) && Happens(cfg, Step(cfg, w, events[0]), events[1..]))
  }

  function Later(cfg: Config, w: World, events: seq<Event>): World
    requires Happens(cfg, w, events)
    decreases |events|
  {
    if events == [] then w else Later(cfg, Step(cfg, w, events[0]), events[1..])
  }

  // Before the user's first login; the stores hold whatever other users have.
  ghost predicate Start(cfg: Config, w: World) {
    && RefreshTracking.Kept(w.refresh, cfg.ttl, w.seconds)
    && AdminSessionRuns.AllIndexed(cfg.sessions, w.epoch, w.admin)
    && (forall j :: j in w.refresh.tokens ==> w.refresh.tokens[j].sub != cfg.user)
    && (forall sid :: !SessionTracking.Owned(w.admin, w.epoch, sid, cfg.user))
    && w.user == Initial(w.user.row)
  }

  // The user's tokens that are not over, and the user's live sessions, are live in the run.
  ghost predicate TokensFollow(cfg: Config, w: World) {
    forall j :: j in w.refresh.tokens && w.refresh.tokens[j].sub == cfg.user ==>
      Token(RefreshTokens, j) in w.user.live || RefreshTracking.Over(w.refresh, w.seconds, j)
  }

  ghost predicate SessionsFollow(cfg: Config, w: World) {
    forall sid :: SessionTracking.Owned(w.admin, w.epoch, sid, cfg.user) ==> Token(AdminSessions, sid) in w.user.live
  }

  ghost predicate Follows(cfg: Config, w: World) {
    && RefreshTracking.Kept(w.refresh, cfg.ttl, w.seconds)
    && AdminSessionRuns.AllIndexed(cfg.sessions, w.epoch, w.admin)
    && TokensFollow(cfg, w) && SessionsFollow(cfg, w)
    && Inv(cfg.adminOn, w.user)
  }

  lemma LiveStays(cfg: Config, s: System, a: Action, token: Token)
    requires Enabled(cfg.adminOn, s, a) && !a.Expire? && token in s.live && !Effective(a, token.kind)
    ensures token in Next(cfg.adminOn, s, a).live
  {
  }

  lemma OneTokenFollows(cfg: Config, w: World, e: Event, j: R.Jti)
    requires Follows(cfg, w) && Possible(cfg, w, e)
    requires j in Step(cfg, w, e).refresh.tokens && Step(cfg, w, e).refresh.tokens[j].sub == cfg.user
    ensures Token(RefreshTokens, j) in Step(cfg, w, e).user.live
            || RefreshTracking.Over(Step(cfg, w, e).refresh, Step(cfg, w, e).seconds, j)
  {
    var t := Step(cfg, w, e);
    match e
    case Wait(_, _) =>
    case InRefresh(op) =>
      if !(Token(RefreshTokens, j) in w.user.live) {
        RefreshTracking.OverStays(w.refresh, cfg.ttl, w.seconds, op, j);
      }
    case InAdmin(_) =>
    case Own(a, fam, _) =>
      if Effective(a, RefreshTokens) {
        RefreshTracking.RevokedAreOver(w.refresh, cfg.ttl, w.seconds, cfg.user, j);
      } else if a == Store(Token(RefreshTokens, j)) {
        assert Token(RefreshTokens, j) in t.user.live;
      } else if Token(RefreshTokens, j) in w.user.live {
        LiveStays(cfg, w.user, a, Token(RefreshTokens, j));
      } else if a.Store? && a.token.kind.RefreshTokens? {
        RefreshTracking.OverStays(w.refresh, cfg.ttl, w.seconds,
                                  RefreshTracking.RegisterOne(a.token.id, cfg.user, fam), j);
      }
  }

  lemma OneSessionFollows(cfg: Config, w: World, e: Event, sid: A.Sid)
    requires Follows(cfg, w) && Possible(cfg, w, e)
    requires SessionTracking.Owned(Step(cfg, w, e).admin, Step(cfg, w, e).epoch, sid, cfg.user)
    ensures Token(AdminSessions, sid) in Step(cfg, w, e).user.live
  {
    match e
    case Wait(_, _) => assert SessionTracking.Owned(w.admin, w.epoch, sid, cfg.user);
    case InRefresh(_) => assert SessionTracking.Owned(w.admin, w.epoch, sid, cfg.user);
    case InAdmin(op) => SessionTracking.OwnedBefore(cfg.sessions, w.admin, w.epoch, op, cfg.user, sid);
    case Own(a, _, data) =>
      if Effective(a, AdminSessions) {
        SessionTracking.NoneOwnedAfterRevoke(cfg.sessions, w.admin, w.epoch, cfg.user, sid);
      } else if a == Store(Token(AdminSessions, sid)) {
      } else {
        if a.Store? && a.token.kind.AdminSessions? {
          SessionTracking.OwnedAfterCreate(cfg.sessions, w.admin, w.epoch,
                                           SessionTracking.CreateOne(a.token.id, data), cfg.user, sid);
        }
        assert SessionTracking.Owned(w.admin, w.epoch, sid, cfg.user);
        LiveStays(cfg, w.user, a, Token(AdminSessions, sid));
      }
  }

  lemma StoresKept(cfg: Config, w: World, e: Event)
    requires Follows(cfg, w) && Possible(cfg, w, e)
    ensures RefreshTracking.Kept(Step(cfg, w, e).refresh, cfg.ttl, Step(cfg, w, e).seconds)
    ensures AdminSessionRuns.AllIndexed(cfg.sessions, Step(cfg, w, e).epoch, Step(cfg, w, e).admin)
  {
    match e
    case Wait(seconds, epoch) =>
      RefreshTracking.KeptLater(w.refresh, cfg.ttl, w.seconds, seconds);
      SessionTracking.IndexedLater(cfg.sessions, w.admin, w.epoch, epoch);
    case InRefresh(op) => RefreshTracking.KeptAfter(w.refresh, cfg.ttl, w.seconds, op);
    case InAdmin(op) => SessionTracking.IndexedAfter(cfg.sessions, w.admin, w.epoch, op);
    case Own(a, fam, data) =>
      if a.Store? {
        RefreshTracking.KeptAfter(w.refresh, cfg.ttl, w.seconds,
            RefreshTracking.RegisterOne(a.token.id, cfg.user, fam));
        SessionTracking.IndexedAfter(cfg.sessions, w.admin, w.epoch, SessionTracking.CreateOne(a.token.id, data));
      } else if a.Revoke? {
        RefreshTracking.KeptAfter(w.refresh, cfg.ttl, w.seconds, RefreshTracking.RevokeAll(cfg.user));
        SessionTracking.IndexedAfter(cfg.sessions, w.admin, w.epoch, SessionTracking.RevokeAll(cfg.user));
      }
  }

  lemma FollowsNext(cfg: Config, w: World, e: Event)
    requires Follows(cfg, w) && Possible(cfg, w, e)
    ensures Follows(cfg, Step(cfg, w, e))
  {
    hide RefreshNext, AdminNext, RefreshTracking.Kept, AdminSessionRuns.AllIndexed, Inv, Next;
    hide RefreshTracking.Over, SessionTracking.Owned;
    var t := Step(cfg, w, e);
    StoresKept(cfg, w, e);
    if e.Own? {
      InvNext(cfg.adminOn, w.user, e.a);
    }
    forall j | j in t.refresh.tokens && t.refresh.tokens[j].sub == cfg.user
      ensures Token(RefreshTokens, j) in t.user.live || RefreshTracking.Over(t.refresh, t.seconds, j)
    {
      OneTokenFollows(cfg, w, e, j);
    }
    forall sid | SessionTracking.Owned(t.admin, t.epoch, sid, cfg.user) ensures Token(AdminSessions,
        sid) in t.user.live {
      OneSessionFollows(cfg, w, e, sid);
    }
  }

  lemma {:induction false} FollowsAfter(cfg: Config, w: World, events: seq<Event>)
    requires Follows(cfg, w) && Happens(cfg, w, events)
    ensures Follows(cfg, Later(cfg, w, events))
    decreases |events|
  {
    if events != [] {
      FollowsNext(cfg, w, events[0]);
      FollowsAfter(cfg, Step(cfg, w, events[0]), events[1..]);
    }
  }

  // What the stores would accept of the user: a refresh token that can be rotated, a session that
  // can be loaded.
  predicate Accepted(cfg: Config, w: World, token: Token) {
    if token.kind.RefreshTokens?
    then R.Usable(w.refresh, w.seconds, token.id) && w.refresh.tokens[token.id].sub == cfg.user
    else SessionTracking.Owned(w.admin, w.epoch, token.id, cfg.user)
  }

  lemma StartFollows(cfg: Config, w: World)
    requires Start(cfg, w)
    ensures Follows(cfg, w)
    ensures LiveRightful(w.user) && LoginsRightful(w.user)
  {
  }

  lemma AcceptedIsLive(cfg: Config, w: World, token: Token)
    requires TokensFollow(cfg, w) && SessionsFollow(cfg, w) && Accepted(cfg, w, token)
    ensures token in w.user.live
  {
    assert token == Token(token.kind, token.id);
  }

  lemma RevokedByEdit(adminOn: bool, s: System, id: Id, token: Token)
    requires Inv(adminOn, s) && id in s.edits && token in s.live
    ensures token.kind in s.edits[id].revokedAt ==> s.edits[id].revokedAt[token.kind] < s.live[token].storedAt
    ensures s.edits[id].phase.Committed? && TakesAway(s.edits[id]) ==> token.kind in s.edits[id].revokedAt
  {
    var e := s.edits[id];
    assert Orderly(adminOn, s.now, e) && SweptBy(s, e);
    assert e.phase.Committed? && TakesAway(e) ==> Asks(e, token.kind);
  }

  // In every run over the stores, with failures of Redis anywhere: whatever the stores still accept
  // of the user after an edit's revocation -- at its commit or later -- was stored after that
  // revocation, and an edit that takes something away has revoked before it commits.
  lemma NothingOlderIsAccepted(cfg: Config, w: World, events: seq<Event>, id: Id, token: Token)
    requires Start(cfg, w) && Happens(cfg, w, events)
    requires id in Later(cfg, w, events).user.edits && Accepted(cfg, Later(cfg, w, events), token)
    ensures
      var t := Later(cfg, w, events).user;
      && token in t.live
      && (token.kind in t.edits[id].revokedAt ==> t.edits[id].revokedAt[token.kind] < t.live[token].storedAt)
      && (t.edits[id].phase.Committed? && TakesAway(t.edits[id]) ==> token.kind in t.edits[id].revokedAt)
  {
    hide Start, Accepted, TokensFollow, SessionsFollow, Inv, TakesAway;
    StartFollows(cfg, w);
    FollowsAfter(cfg, w, events);
    var t := Later(cfg, w, events);
    AcceptedIsLive(cfg, t, token);
    RevokedByEdit(cfg.adminOn, t.user, id, token);
  }

  lemma {:induction false} RightfulAfter(cfg: Config, w: World, events: seq<Event>)
    requires Inv(cfg.adminOn, w.user) && LiveRightful(w.user) && LoginsRightful(w.user)
    requires Happens(cfg, w, events)
    ensures LiveRightful(Later(cfg, w, events).user)
    decreases |events|
  {
    if events != [] {
      if events[0].Own? {
        RightsHold(cfg.adminOn, w.user, [events[0].a]);
        OneAction(cfg.adminOn, w.user, events[0].a);
        InvNext(cfg.adminOn, w.user, events[0].a);
      }
      RightfulAfter(cfg, Step(cfg, w, events[0]), events[1..]);
    }
  }

  lemma OneAction(adminOn: bool, s: System, a: Action)
    requires Enabled(adminOn, s, a)
    ensures Runs(adminOn, s, [a]) && After(adminOn, s, [a]) == Next(adminOn, s, a)
  {
    Play(adminOn, s, a, []);
    assert [a] + [] == [a];
  }

  // And in every such run, whatever the stores accept of the user was issued
  // under rights the user still has, unless its login overlapped the edit that took them.
  lemma AcceptedIsRightful(cfg: Config, w: World, events: seq<Event>, token: Token)
    requires Start(cfg, w) && Happens(cfg, w, events)
    requires Accepted(cfg, Later(cfg, w, events), token)
    ensures
      var t := Later(cfg, w, events).user;
      token in t.live && (Keeps(t.live[token].login.row, t.row) || Overlapped(t, token))
  {
    hide Start, Accepted, TokensFollow, SessionsFollow, Inv, Overlapped, Keeps;
    StartFollows(cfg, w);
    FollowsAfter(cfg, w, events);
    RightfulAfter(cfg, w, events);
    AcceptedIsLive(cfg, Later(cfg, w, events), token);
  }
}

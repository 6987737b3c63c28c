// The refresh-token rotation protocol: the three TTL maps kept by RefreshTokenStore and the
// steps that logins, rotations, logouts and user revocations take over them.
//
// Ids (jti, family, subject, request) are opaque; `uuid4` hands out an id never used before.
// Time only grows, and a key is live iff `now < exp`.

module RefreshStore {
  type Jti = nat
  type Fam = nat
  type Sub = string
  type Time = int
  type Seconds = x: int | 0 < x witness 1

  // auth:rt:{jti}, auth:user:{sub}:fams and auth:fam:{fam}:revoked, each with its expiry.
  datatype Record = Record(fam: Fam, sub: Sub, exp: Time)
  datatype Index = Index(fams: set<Fam>, exp: Time)
  datatype Store = Store(tokens: map<Jti, Record>, index: map<Sub, Index>, revoked: map<Fam, Time>)

  const EMPTY := Store(map[], map[], map[])

  predicate TokenLive(s: Store, now: Time, jti: Jti) {
    jti in s.tokens && now < s.tokens[jti].exp
  }

  predicate IsRevoked(s: Store, now: Time, fam: Fam) {
    fam in s.revoked && now < s.revoked[fam]
  }

  // A live token whose family is not revoked.
  predicate Usable(s: Store, now: Time, jti: Jti) {
    TokenLive(s, now, jti) && !IsRevoked(s, now, s.tokens[jti].fam)
  }

  // SMEMBERS: an expired set reads as empty.
  function Families(s: Store, now: Time, sub: Sub): set<Fam> {
    if sub in s.index && now < s.index[sub].exp then s.index[sub].fams else {}
  }

  function Register(s: Store, ttl: Seconds, now: Time, jti: Jti, sub: Sub, fam: Fam): Store {
    s.(tokens := s.tokens[jti := Record(fam, sub, now + ttl)],
       index := s.index[sub := Index(Families(s, now, sub) + {fam}, now + ttl)])
  }

  // GETDEL: the value is handed to one caller only.
  function Consume(s: Store, jti: Jti): Store {
    s.(tokens := s.tokens - {jti})
  }

  function RevokeFamily(s: Store, ttl: Seconds, now: Time, fam: Fam): Store {
    s.(revoked := s.revoked[fam := now + ttl])
  }

  function Marks(fams: set<Fam>, exp: Time): map<Fam, Time> {
    map f | f in fams :: exp
  }

  function RevokeUser(s: Store, ttl: Seconds, now: Time, sub: Sub): Store {
    s.(revoked := s.revoked + Marks(Families(s, now, sub), now + ttl),
       index := s.index - {sub})
  }

  // Every live token's family is in its owner's live index, or under a marker; either way the
  // entry expires no earlier than the token.
  ghost predicate Covered(s: Store, now: Time, jti: Jti)
    requires jti in s.tokens
  {
    var t := s.tokens[jti];
    now < t.exp ==>
      || (t.fam in Families(s, now, t.sub) && t.exp <= s.index[t.sub].exp)
      || (t.fam in s.revoked && t.exp <= s.revoked[t.fam])
  }
}

module RefreshProtocol {
  import opened Basics
  import opened RefreshStore

  type Rid = nat

  // The claims of a signed refresh token.
  datatype Claims = Claims(jti: Jti, fam: Fam, sub: Sub)

  // Where a call of `rotate` stands between two awaits.
  datatype Phase =
    | Consumed(claims: Claims, since: Time)   // GETDEL returned the record
    | Checked(claims: Claims, since: Time)    // the family was not revoked
    | Looked(claims: Claims, since: Time)     // the user exists and is active
    | Condemned(fam: Fam, since: Time)        // about to revoke the family and raise
  {
    predicate Holds(f: Fam) { !Condemned? && claims.fam == f }

    predicate PastCheck(f: Fam) { (Checked? || Looked?) && claims.fam == f }
  }

  datatype System = System(
    now: Time,
    store: Store,
    issued: map<Jti, Claims>,      // every refresh token ever signed
    inflight: map<Rid, Phase>,
    consumed: seq<Jti>)            // successful GETDELs, oldest first

  datatype Action =
    | Tick(t: Time)
    | Login(sub: Sub, jti: Jti, fam: Fam)
    | Present(rid: Rid, jti: Jti)            // rotate: decode, then consume
    | Check(rid: Rid)                        // rotate: is_family_revoked
    | Lookup(rid: Rid, active: bool)         // rotate: get_by_id
    | Issue(rid: Rid, jti: Jti)              // rotate: register the successor
    | Condemn(rid: Rid)                      // rotate: revoke_family, then raise
    | Abort(rid: Rid)                        // the request dies between two awaits
    | Logout(jti: Jti)
    | RevokeOwner(sub: Sub)

  const INITIAL := System(0, EMPTY, map[], map[], [])

  function FamsOf(issued: map<Jti, Claims>): set<Fam> {
    set j | j in issued :: issued[j].fam
  }

  predicate Enabled(s: System, a: Action) {
    match a
    case Tick(t) => s.now <= t
    case Login(sub, jti, fam) => jti !in s.issued && fam !in FamsOf(s.issued)
    case Present(rid, jti) => rid !in s.inflight && jti in s.issued
    case Check(rid) => rid in s.inflight && s.inflight[rid].Consumed?
    case Lookup(rid, active) => rid in s.inflight && s.inflight[rid].Checked?
    case Issue(rid, jti) => rid in s.inflight && s.inflight[rid].Looked? && jti !in s.issued
    case Condemn(rid) => rid in s.inflight && s.inflight[rid].Condemned?
    case Abort(rid) => rid in s.inflight
    case Logout(jti) => jti in s.issued
    case RevokeOwner(sub) => true
  }

  function Next(ttl: Seconds, s: System, a: Action): System
    requires Enabled(s, a)
  {
    match a
    case Tick(t) => s.(now := t)
    case Login(sub, jti, fam) =>
      s.(store := Register(s.store, ttl, s.now, jti, sub, fam), issued := s.issued[jti := Claims(jti, fam, sub)])
    case Present(rid, jti) =>
      var c := s.issued[jti];
      if TokenLive(s.store, s.now, jti)
      then s.(store := Consume(s.store, jti), inflight := s.inflight[rid := Consumed(c, s.now)],
              consumed := s.consumed + [jti])
      else s.(inflight := s.inflight[rid := Condemned(c.fam, s.now)])
    case Check(rid) =>
      var p := s.inflight[rid];
      if IsRevoked(s.store, s.now, p.claims.fam)
      then s.(inflight := s.inflight - {rid})
      else s.(inflight := s.inflight[rid := Checked(p.claims, p.since)])
    case Lookup(rid, active) =>
      var p := s.inflight[rid];
      s.(inflight := s.inflight[rid := if active then Looked(p.claims, p.since) else Condemned(p.claims.fam, p.since)])
    case Issue(rid, jti) =>
      var c := s.inflight[rid].claims;
      s.(store := Register(s.store, ttl, s.now, jti, c.sub, c.fam),
         issued := s.issued[jti := Claims(jti, c.fam, c.sub)],
         inflight := s.inflight - {rid})
    case Condemn(rid) =>
      s.(store := RevokeFamily(s.store, ttl, s.now, s.inflight[rid].fam), inflight := s.inflight - {rid})
    case Abort(rid) => s.(inflight := s.inflight - {rid})
    case Logout(jti) => s.(store := RevokeFamily(s.store, ttl, s.now, s.issued[jti].fam))
    case RevokeOwner(sub) => s.(store := RevokeUser(s.store, ttl, s.now, sub))
  }

  // A run is a list of actions, each enabled where it is taken.
  predicate Runs(ttl: Seconds, s: System, acts: seq<Action>)
    decreases |acts|
  {
    acts == [] || (Enabled(s, acts[0]) && Runs(ttl, Next(ttl, s, acts[0]), acts[1..]))
  }

  function After(ttl: Seconds, s: System, acts: seq<Action>): System
    requires Runs(ttl, s, acts)
    decreases |acts|
  {
    if acts == [] then s else After(ttl, Next(ttl, s, acts[0]), acts[1..])
  }

  // ---------------------------------------------------------------------------------------
  // The invariant
  // ---------------------------------------------------------------------------------------

  ghost predicate NoDup(q: seq<Jti>) {
    forall i, j :: 0 <= i < j < |q| ==> q[i] != q[j]
  }

  // Stored records and claims of rotations agree with what was signed.
  ghost predicate Agrees(s: System) {
    && (forall j :: j in s.issued ==> s.issued[j].jti == j)
    && (forall j :: j in s.store.tokens ==>
          && j in s.issued
          && s.store.tokens[j].fam == s.issued[j].fam
          && s.store.tokens[j].sub == s.issued[j].sub)
    && (forall r :: r in s.inflight ==> PhaseAgrees(s, s.inflight[r]))
  }

  ghost predicate PhaseAgrees(s: System, p: Phase) {
    && p.since <= s.now
    && (p.Condemned? ==> p.fam in FamsOf(s.issued))
    && (!p.Condemned? ==> p.claims.jti in s.issued && s.issued[p.claims.jti] == p.claims)
  }

  // A family belongs to one user.
  ghost predicate OneOwner(s: System) {
    forall i, j | i in s.issued && j in s.issued && s.issued[i].fam == s.issued[j].fam ::
        s.issued[i].sub == s.issued[j].sub
  }

  // At most one of: a stored token, a rotation between consume and register -- per family.
  ghost predicate OneStored(s: System) {
    forall i, j | i in s.store.tokens && j in s.store.tokens && s.store.tokens[i].fam == s.store.tokens[j].fam :: i == j
  }

  ghost predicate OneRotating(s: System) {
    forall f, q, r | q in s.inflight && r in s.inflight && s.inflight[q].Holds(f) && s.inflight[r].Holds(f) :: q == r
  }

  ghost predicate NotBoth(s: System) {
    forall j, r | j in s.store.tokens && r in s.inflight :: !s.inflight[r].Holds(s.store.tokens[j].fam)
  }

  ghost predicate OneHolder(s: System) {
    OneStored(s) && OneRotating(s) && NotBoth(s)
  }

  ghost predicate Fresh(s: System) {
    && NoDup(s.consumed)
    && (forall j :: j in s.consumed ==> j in s.issued && j !in s.store.tokens)
  }

  // No expiry lies further ahead than one TTL; every recorded family was issued.
  ghost predicate Bounded(ttl: Seconds, s: System) {
    && (forall j :: j in s.store.tokens ==> s.store.tokens[j].exp <= s.now + ttl)
    && (forall f :: f in s.store.revoked ==> s.store.revoked[f] <= s.now + ttl && f in FamsOf(s.issued))
    && (forall u :: u in s.store.index ==>
          s.store.index[u].exp <= s.now + ttl && s.store.index[u].fams <= FamsOf(s.issued))
  }

  ghost predicate AllCovered(s: System) {
    forall j :: j in s.store.tokens ==> Covered(s.store, s.now, j)
  }

  ghost predicate Inv(ttl: Seconds, s: System) {
    Agrees(s) && OneOwner(s) && OneHolder(s) && Fresh(s) && Bounded(ttl, s) && AllCovered(s)
  }

  lemma InvInitial(ttl: Seconds)
    ensures Inv(ttl, INITIAL)
  {
  }

  lemma InvNext(ttl: Seconds, s: System, a: Action)
    requires Inv(ttl, s) && Enabled(s, a)
    ensures Inv(ttl, Next(ttl, s, a))
  {
    AgreesNext(ttl, s, a);
    OneOwnerNext(ttl, s, a);
    OneHolderNext(ttl, s, a);
    FreshNext(ttl, s, a);
    BoundedNext(ttl, s, a);
    CoveredNext(ttl, s, a);
  }

  // Signed tokens are never forgotten or changed.
  lemma IssuedGrows(ttl: Seconds, s: System, a: Action)
    requires Enabled(s, a)
    ensures forall j :: j in s.issued ==> j in Next(ttl, s, a).issued && Next(ttl, s, a).issued[j] == s.issued[j]
    ensures FamsOf(s.issued) <= FamsOf(Next(ttl, s, a).issued)
  {
    var t := Next(ttl, s, a);
    forall f | f in FamsOf(s.issued) ensures f in FamsOf(t.issued) {
      var j :| j in s.issued && s.issued[j].fam == f;
      assert j in t.issued && t.issued[j].fam == f;
    }
  }

  lemma AgreesNext(ttl: Seconds, s: System, a: Action)
    requires Agrees(s) && Enabled(s, a)
    ensures Agrees(Next(ttl, s, a))
  {
    IssuedGrows(ttl, s, a);
    var t := Next(ttl, s, a);
    forall r | r in t.inflight ensures PhaseAgrees(t, t.inflight[r]) {
      if r in s.inflight {
        assert PhaseAgrees(s, s.inflight[r]);
      }
    }
  }

  lemma OneOwnerNext(ttl: Seconds, s: System, a: Action)
    requires Agrees(s) && OneOwner(s) && Enabled(s, a)
    ensures OneOwner(Next(ttl, s, a))
  {
  }

  lemma OneHolderNext(ttl: Seconds, s: System, a: Action)
    requires Agrees(s) && OneHolder(s) && Enabled(s, a)
    ensures OneHolder(Next(ttl, s, a))
  {
    OneStoredNext(ttl, s, a);
    OneRotatingNext(ttl, s, a);
    NotBothNext(ttl, s, a);
  }

  lemma OneStoredNext(ttl: Seconds, s: System, a: Action)
    requires Agrees(s) && OneHolder(s) && Enabled(s, a)
    ensures OneStored(Next(ttl, s, a))
  {
    if a.Issue? {
      assert s.inflight[a.rid].Holds(s.inflight[a.rid].claims.fam);
    }
  }

  lemma OneRotatingNext(ttl: Seconds, s: System, a: Action)
    requires Agrees(s) && OneHolder(s) && Enabled(s, a)
    ensures OneRotating(Next(ttl, s, a))
  {
    var t := Next(ttl, s, a);
    forall f, q, r | q in t.inflight && r in t.inflight && t.inflight[q].Holds(f) && t.inflight[r].Holds(f)
      ensures q == r
    {
      if q in s.inflight && r in s.inflight {
        assert s.inflight[q].Holds(f) && s.inflight[r].Holds(f);
      }
    }
  }

  lemma HeldBefore(ttl: Seconds, s: System, a: Action, r: Rid, f: Fam)
    requires Enabled(s, a) && r in s.inflight && r in Next(ttl, s, a).inflight
    ensures Next(ttl, s, a).inflight[r].Holds(f) ==> s.inflight[r].Holds(f)
  {
  }

  lemma NotBothNext(ttl: Seconds, s: System, a: Action)
    requires Agrees(s) && OneHolder(s) && Enabled(s, a)
    ensures NotBoth(Next(ttl, s, a))
  {
    var t := Next(ttl, s, a);
    forall j, r | j in t.store.tokens && r in t.inflight
      ensures !t.inflight[r].Holds(t.store.tokens[j].fam)
    {
      if r in s.inflight {
        HeldBefore(ttl, s, a, r, t.store.tokens[j].fam);
      }
    }
  }

  lemma FreshNext(ttl: Seconds, s: System, a: Action)
    requires Agrees(s) && Fresh(s) && Enabled(s, a)
    ensures Fresh(Next(ttl, s, a))
  {
  }

  lemma BoundedNext(ttl: Seconds, s: System, a: Action)
    requires Agrees(s) && Bounded(ttl, s) && Enabled(s, a)
    ensures Bounded(ttl, Next(ttl, s, a))
  {
    IssuedGrows(ttl, s, a);
    var t := Next(ttl, s, a);
    if a.Issue? || a.Login? {
      assert t.issued[a.jti].fam in FamsOf(t.issued);
    }
  }

  lemma CoveredNext(ttl: Seconds, s: System, a: Action)
    requires Bounded(ttl, s) && AllCovered(s) && Enabled(s, a)
    ensures AllCovered(Next(ttl, s, a))
  {
  }

  lemma {:induction false} InvAfter(ttl: Seconds, s: System, acts: seq<Action>)
    requires Inv(ttl, s) && Runs(ttl, s, acts)
    ensures Inv(ttl, After(ttl, s, acts))
    decreases |acts|
  {
    if acts != [] {
      InvNext(ttl, s, acts[0]);
      InvAfter(ttl, Next(ttl, s, acts[0]), acts[1..]);
    }
  }

  // ---------------------------------------------------------------------------------------
  // Single use, one holder per family, index coverage -- in every interleaving
  // ---------------------------------------------------------------------------------------

  datatype Holder = Stored(jti: Jti) | Rotating(rid: Rid)

  // The stored tokens of a family and its rotations between consume and register.
  function Holders(s: System, f: Fam): set<Holder> {
    (set j | j in s.store.tokens && s.store.tokens[j].fam == f :: Stored(j)) +
    (set r | r in s.inflight && s.inflight[r].Holds(f) :: Rotating(r))
  }

  lemma AllEqualIsSmall<T>(q: set<T>)
    requires forall x, y | x in q && y in q :: x == y
    ensures |q| <= 1
  {
    if q != {} {
      var x :| x in q;
      assert q == {x};
    }
  }

  lemma SingleUse(ttl: Seconds, acts: seq<Action>, f: Fam)
    requires Runs(ttl, INITIAL, acts)
    ensures NoDup(After(ttl, INITIAL, acts).consumed)
    ensures |Holders(After(ttl, INITIAL, acts), f)| <= 1
    ensures AllCovered(After(ttl, INITIAL, acts))
  {
    InvInitial(ttl);
    InvAfter(ttl, INITIAL, acts);
    FewHolders(After(ttl, INITIAL, acts), f);
  }

  lemma FewHolders(s: System, f: Fam)
    requires OneHolder(s)
    ensures |Holders(s, f)| <= 1
  {
    forall x, y | x in Holders(s, f) && y in Holders(s, f) ensures x == y {
    }
    AllEqualIsSmall(Holders(s, f));
  }

  // ---------------------------------------------------------------------------------------
  // How long a token lasts
  // ---------------------------------------------------------------------------------------

  predicate NotPresented(acts: seq<Action>, jti: Jti) {
    forall i :: 0 <= i < |acts| && acts[i].Present? ==> acts[i].jti != jti
  }

  lemma {:induction false} RecordStays(ttl: Seconds, s: System, acts: seq<Action>, jti: Jti)
    requires Runs(ttl, s, acts) && NotPresented(acts, jti) && jti in s.issued && jti in s.store.tokens
    ensures jti in After(ttl, s, acts).store.tokens
    ensures After(ttl, s, acts).store.tokens[jti] == s.store.tokens[jti]
    decreases |acts|
  {
    if acts != [] {
      assert !(acts[0].Present? && acts[0].jti == jti);
      RecordStays(ttl, Next(ttl, s, acts[0]), acts[1..], jti);
    }
  }

  // A token that a login or a rotation registers, and that nobody presents, is live exactly for its
  // ttl, whatever else happens.
  lemma TokenLasts(ttl: Seconds, s: System, birth: Action, jti: Jti, acts: seq<Action>)
    requires Enabled(s, birth) && (birth.Login? || birth.Issue?) && birth.jti == jti
    requires Runs(ttl, Next(ttl, s, birth), acts) && NotPresented(acts, jti)
    ensures
      var t := After(ttl, Next(ttl, s, birth), acts);
      TokenLive(t.store, t.now, jti) <==> t.now < s.now + ttl
  {
    RecordStays(ttl, Next(ttl, s, birth), acts, jti);
  }

  // ---------------------------------------------------------------------------------------
  // While a marker is live
  // ---------------------------------------------------------------------------------------

  function IssuedIn(s: System, f: Fam): set<Jti> {
    set j | j in s.issued && s.issued[j].fam == f
  }

  function Passed(s: System, f: Fam): set<Rid> {
    set r | r in s.inflight && s.inflight[r].PastCheck(f)
  }

  lemma MarkerStays(ttl: Seconds, s: System, a: Action, f: Fam)
    requires Bounded(ttl, s) && Enabled(s, a) && f in s.store.revoked
    ensures f in Next(ttl, s, a).store.revoked
    ensures s.store.revoked[f] <= Next(ttl, s, a).store.revoked[f]
  {
  }

  lemma PassedNext(ttl: Seconds, s: System, a: Action, f: Fam)
    requires Enabled(s, a) && IsRevoked(s.store, s.now, f) && f in FamsOf(s.issued)
    ensures |IssuedIn(Next(ttl, s, a), f)| + |Passed(Next(ttl, s, a), f)| <= |IssuedIn(s, f)| + |Passed(s, f)|
  {
    var t := Next(ttl, s, a);
    if a.Issue? && s.inflight[a.rid].claims.fam == f {
      assert IssuedIn(t, f) == IssuedIn(s, f) + {a.jti};
      assert Passed(s, f) == Passed(t, f) + {a.rid};
    } else {
      NoneIssued(ttl, s, a, f);
      NonePasses(ttl, s, a, f);
      SubsetSize(Passed(t, f), Passed(s, f));
    }
  }

  lemma NoneIssued(ttl: Seconds, s: System, a: Action, f: Fam)
    requires Enabled(s, a) && f in FamsOf(s.issued)
    requires a.Issue? ==> s.inflight[a.rid].claims.fam != f
    ensures IssuedIn(Next(ttl, s, a), f) == IssuedIn(s, f)
  {
  }

  lemma NonePasses(ttl: Seconds, s: System, a: Action, f: Fam)
    requires Enabled(s, a) && IsRevoked(s.store, s.now, f)
    ensures Passed(Next(ttl, s, a), f) <= Passed(s, f)
  {
    var t := Next(ttl, s, a);
    forall r | r in Passed(t, f) ensures r in Passed(s, f) {
    }
  }

  // As long as the marker set at `s` is live, a family gains at most one token: the one of the
  // rotation that had already passed its revoked-check, if there was one.
  lemma {:induction false} NoIssueWhileMarked(ttl: Seconds, s: System, acts: seq<Action>, f: Fam)
    requires Inv(ttl, s) && Runs(ttl, s, acts)
    requires f in s.store.revoked && After(ttl, s, acts).now < s.store.revoked[f]
    ensures |IssuedIn(After(ttl, s, acts), f)| + |Passed(After(ttl, s, acts), f)| <= |IssuedIn(s, f)| + |Passed(s, f)|
    ensures |Passed(s, f)| <= 1
    ensures s.now <= After(ttl, s, acts).now
    decreases |acts|
  {
    forall x, y | x in Passed(s, f) && y in Passed(s, f) ensures x == y {
      assert s.inflight[x].Holds(f) && s.inflight[y].Holds(f);
    }
    AllEqualIsSmall(Passed(s, f));
    if acts != [] {
      var t := Next(ttl, s, acts[0]);
      InvNext(ttl, s, acts[0]);
      MarkerStays(ttl, s, acts[0], f);
      NoIssueWhileMarked(ttl, t, acts[1..], f);
      PassedNext(ttl, s, acts[0], f);
    }
  }

  // A rotation whose token was refused stays condemned until it has revoked its family.
  predicate LeavesAlone(acts: seq<Action>, rid: Rid) {
    forall i :: 0 <= i < |acts| ==> acts[i] != Condemn(rid) && acts[i] != Abort(rid)
  }

  lemma {:induction false} CondemnedWaits(ttl: Seconds, s: System, acts: seq<Action>, rid: Rid)
    requires Runs(ttl, s, acts) && LeavesAlone(acts, rid) && rid in s.inflight && s.inflight[rid].Condemned?
    ensures rid in After(ttl, s, acts).inflight && After(ttl, s, acts).inflight[rid] == s.inflight[rid]
    ensures Enabled(After(ttl, s, acts), Condemn(rid))
    decreases |acts|
  {
    if acts != [] {
      assert acts[0] != Condemn(rid) && acts[0] != Abort(rid);
      CondemnedWaits(ttl, Next(ttl, s, acts[0]), acts[1..], rid);
    }
  }

  // The family of a token that is presented when it is not live, or of a user found inactive: once
  // the rotation has revoked it, it gains at most the token of a rotation that was already past its
  // check, for as long as the marker lasts, whatever runs before, between and after.
  lemma RefusalEndsFamily(ttl: Seconds, s: System, refusal: Action, between: seq<Action>, after: seq<Action>)
    requires Inv(ttl, s) && Enabled(s, refusal)
    requires (refusal.Present? && !TokenLive(s.store, s.now, refusal.jti)) || (refusal.Lookup? && !refusal.active)
    requires Runs(ttl, Next(ttl, s, refusal), between) && LeavesAlone(between, refusal.rid)
    requires
      var s2 := After(ttl, Next(ttl, s, refusal), between);
      && Enabled(s2, Condemn(refusal.rid)) && Runs(ttl, Next(ttl, s2, Condemn(refusal.rid)), after)
      && After(ttl, Next(ttl, s2, Condemn(refusal.rid)), after).now < s2.now + ttl
    ensures
      var f := if refusal.Present? then s.issued[refusal.jti].fam else s.inflight[refusal.rid].claims.fam;
      var s3 := Next(ttl, After(ttl, Next(ttl, s, refusal), between), Condemn(refusal.rid));
      && |IssuedIn(After(ttl, s3, after), f)| <= |IssuedIn(s3, f)| + |Passed(s3, f)|
      && |Passed(s3, f)| <= 1
  {
    var s1 := Next(ttl, s, refusal);
    InvNext(ttl, s, refusal);
    InvAfter(ttl, s1, between);
    CondemnedWaits(ttl, s1, between, refusal.rid);
    var s2 := After(ttl, s1, between);
    MarkedEndsFamily(ttl, s2, Condemn(refusal.rid), after, s1.inflight[refusal.rid].fam);
  }

  // The same of a logout.
  lemma LogoutEndsFamily(ttl: Seconds, s: System, jti: Jti, after: seq<Action>)
    requires Inv(ttl, s) && Enabled(s, Logout(jti)) && Runs(ttl, Next(ttl, s, Logout(jti)), after)
    requires After(ttl, Next(ttl, s, Logout(jti)), after).now < s.now + ttl
    ensures
      var f, t := s.issued[jti].fam, Next(ttl, s, Logout(jti));
      |IssuedIn(After(ttl, t, after), f)| <= |IssuedIn(t, f)| + |Passed(t, f)| && |Passed(t, f)| <= 1
  {
    MarkedEndsFamily(ttl, s, Logout(jti), after, s.issued[jti].fam);
  }

  lemma MarkedEndsFamily(ttl: Seconds, s: System, a: Action, after: seq<Action>, f: Fam)
    requires Inv(ttl, s) && Enabled(s, a) && Runs(ttl, Next(ttl, s, a), after)
    requires (a.Condemn? && s.inflight[a.rid].fam == f) || (a.Logout? && s.issued[a.jti].fam == f)
    requires After(ttl, Next(ttl, s, a), after).now < s.now + ttl
    ensures |IssuedIn(After(ttl, Next(ttl, s, a), after), f)| <= |IssuedIn(Next(ttl, s, a),
            f)| + |Passed(Next(ttl, s, a), f)|
    ensures |Passed(Next(ttl, s, a), f)| <= 1
  {
    InvNext(ttl, s, a);
    NoIssueWhileMarked(ttl, Next(ttl, s, a), after, f);
  }

  // ---------------------------------------------------------------------------------------
  // After the marker expires: rotations bounded by D
  // ---------------------------------------------------------------------------------------

  // Every rotation still in flight began at most `D` ago.
  predicate Prompt(D: nat, s: System) {
    forall r :: r in s.inflight ==> s.now <= s.inflight[r].since + D
  }

  predicate PromptRun(ttl: Seconds, D: nat, s: System, acts: seq<Action>)
    requires Runs(ttl, s, acts)
    decreases |acts|
  {
    Prompt(D, s) && (acts != [] ==> PromptRun(ttl, D, Next(ttl, s, acts[0]), acts[1..]))
  }

  // Each stored token of the family is expired or runs out `D` before the marker does.
  predicate DeadTokens(D: nat, s: System, f: Fam) {
    forall j | j in s.store.tokens && s.store.tokens[j].fam == f ::
      s.store.tokens[j].exp <= s.now || (f in s.store.revoked && s.store.tokens[j].exp + D <= s.store.revoked[f])
  }

  // No rotation of the family is past its check or young enough to outlive the marker.
  predicate DeadRotations(D: nat, s: System, f: Fam) {
    forall r | r in s.inflight && s.inflight[r].Holds(f) ::
      s.inflight[r].Consumed? && f in s.store.revoked && s.inflight[r].since + D < s.store.revoked[f]
  }

  // The family cannot issue again.
  predicate Dead(D: nat, s: System, f: Fam) {
    f in FamsOf(s.issued) && DeadTokens(D, s, f) && DeadRotations(D, s, f)
  }

  lemma DeadTokensNext(ttl: Seconds, D: nat, s: System, a: Action, f: Fam)
    requires Bounded(ttl, s) && Enabled(s, a) && Dead(D, s, f)
    ensures DeadTokens(D, Next(ttl, s, a), f)
  {
    if f in s.store.revoked {
      MarkerStays(ttl, s, a, f);
    }
  }

  lemma DeadRotationsNext(ttl: Seconds, D: nat, s: System, a: Action, f: Fam)
    requires Agrees(s) && Bounded(ttl, s) && Enabled(s, a) && Prompt(D, s) && Dead(D, s, f)
    ensures DeadRotations(D, Next(ttl, s, a), f)
  {
    var t := Next(ttl, s, a);
    if f in s.store.revoked {
      MarkerStays(ttl, s, a, f);
    }
    forall r | r in t.inflight && t.inflight[r].Holds(f)
      ensures t.inflight[r].Consumed? && f in t.store.revoked && t.inflight[r].since + D < t.store.revoked[f]
    {
      if r in s.inflight && s.inflight[r] == t.inflight[r] {
        assert s.inflight[r].Holds(f);
      } else if a.Present? {
        assert s.store.tokens[a.jti].fam == f;
      } else {
        assert s.inflight[r].Holds(f);
      }
    }
  }

  lemma DeadIssues(ttl: Seconds, D: nat, s: System, a: Action, f: Fam)
    requires Enabled(s, a) && Dead(D, s, f)
    ensures IssuedIn(Next(ttl, s, a), f) == IssuedIn(s, f)
  {
    if a.Issue? {
      assert !s.inflight[a.rid].Holds(f);
    }
  }

  lemma DeadNext(ttl: Seconds, D: nat, s: System, a: Action, f: Fam)
    requires Agrees(s) && Bounded(ttl, s) && Enabled(s, a) && Prompt(D, s) && Dead(D, s, f)
    ensures Dead(D, Next(ttl, s, a), f)
    ensures IssuedIn(Next(ttl, s, a), f) == IssuedIn(s, f)
  {
    IssuedGrows(ttl, s, a);
    DeadTokensNext(ttl, D, s, a, f);
    DeadRotationsNext(ttl, D, s, a, f);
    DeadIssues(ttl, D, s, a, f);
  }

  lemma {:induction false} DeadForever(ttl: Seconds, D: nat, s: System, acts: seq<Action>, f: Fam)
    requires Inv(ttl, s) && Runs(ttl, s, acts) && PromptRun(ttl, D, s, acts) && Dead(D, s, f)
    ensures Dead(D, After(ttl, s, acts), f)
    ensures IssuedIn(After(ttl, s, acts), f) == IssuedIn(s, f)
    decreases |acts|
  {
    if acts != [] {
      InvNext(ttl, s, acts[0]);
      DeadNext(ttl, D, s, acts[0], f);
      DeadForever(ttl, D, Next(ttl, s, acts[0]), acts[1..], f);
    }
  }

  // ---------------------------------------------------------------------------------------
  // Exactly when a family may issue again
  // ---------------------------------------------------------------------------------------

  // A stored token that has not expired, or a rotation between consume and register.
  predicate Alive(s: System, f: Fam) {
    || (exists j :: j in s.store.tokens && s.store.tokens[j].fam == f && s.now < s.store.tokens[j].exp)
    || (exists r :: r in s.inflight && s.inflight[r].Holds(f))
  }

  ghost predicate MayIssue(ttl: Seconds, s: System, f: Fam) {
    exists acts :: Runs(ttl, s, acts) && IssuedIn(s, f) != IssuedIn(After(ttl, s, acts), f)
  }

  // Without a bound on rotations a marker alone is not enough: a family, marked or not, may
  // issue again if and only if it is still alive.
  lemma MayIssueIffAlive(ttl: Seconds, s: System, f: Fam)
    requires Inv(ttl, s) && f in FamsOf(s.issued)
    ensures MayIssue(ttl, s, f) <==> Alive(s, f)
  {
    if Alive(s, f) {
      if r :| r in s.inflight && s.inflight[r].Holds(f) {
        FinishRotation(ttl, s, f, r);
      } else {
        var j :| j in s.store.tokens && s.store.tokens[j].fam == f && s.now < s.store.tokens[j].exp;
        var r := FreshNat(s.inflight.Keys);
        var t := Next(ttl, s, Present(r, j));
        InvNext(ttl, s, Present(r, j));
        FinishRotation(ttl, t, f, r);
        var acts :| Runs(ttl, t, acts) && IssuedIn(t, f) != IssuedIn(After(ttl, t, acts), f);
        Prepend(ttl, s, Present(r, j), acts);
      }
    }
    forall acts | Runs(ttl, s, acts) && !Alive(s, f)
      ensures IssuedIn(s, f) == IssuedIn(After(ttl, s, acts), f)
    {
      NotAliveForever(ttl, s, acts, f);
    }
  }

  lemma FreshNat(q: set<nat>) returns (n: nat)
    ensures n !in q
  {
    n := 0;
    var rest := q;
    while n in q
      invariant forall k :: k in q && n <= k ==> k in rest
      invariant rest <= q
      decreases |rest|
    {
      rest := rest - {n};
      n := n + 1;
    }
  }

  lemma Prepend(ttl: Seconds, s: System, a: Action, acts: seq<Action>)
    requires Enabled(s, a) && Runs(ttl, Next(ttl, s, a), acts)
    ensures Runs(ttl, s, [a] + acts) && After(ttl, s, [a] + acts) == After(ttl, Next(ttl, s, a), acts)
  {
    assert ([a] + acts)[1..] == acts;
  }

  // A rotation in flight can always be driven to the end, past the marker if need be.
  lemma FinishRotation(ttl: Seconds, s: System, f: Fam, r: Rid)
    requires Inv(ttl, s) && r in s.inflight && s.inflight[r].Holds(f)
    ensures MayIssue(ttl, s, f)
    decreases if s.inflight[r].Looked? then 0 else if s.inflight[r].Checked? then 1 else 2, IsRevoked(s.store, s.now, f)
  {
    var step :=
      if s.inflight[r].Looked? then Issue(r, 0)
      else if s.inflight[r].Checked? then Lookup(r, true)
      else if IsRevoked(s.store, s.now, f) then Tick(s.store.revoked[f])
      else Check(r);
    if s.inflight[r].Looked? {
      var j := FreshNat(s.issued.Keys);
      step := Issue(r, j);
      var t := Next(ttl, s, step);
      assert j in IssuedIn(t, f) && j !in IssuedIn(s, f);
      Prepend(ttl, s, step, []);
      assert After(ttl, s, [step] + []) == t;
    } else {
      var t := Next(ttl, s, step);
      InvNext(ttl, s, step);
      FinishRotation(ttl, t, f, r);
      var acts :| Runs(ttl, t, acts) && IssuedIn(t, f) != IssuedIn(After(ttl, t, acts), f);
      Prepend(ttl, s, step, acts);
    }
  }

  lemma NotAliveNext(ttl: Seconds, s: System, a: Action, f: Fam)
    requires Agrees(s) && Enabled(s, a) && f in FamsOf(s.issued) && !Alive(s, f)
    ensures !Alive(Next(ttl, s, a), f)
    ensures IssuedIn(Next(ttl, s, a), f) == IssuedIn(s, f)
  {
    var t := Next(ttl, s, a);
    forall r | r in t.inflight ensures !t.inflight[r].Holds(f) {
      if r in s.inflight {
        assert !s.inflight[r].Holds(f);
      }
    }
    if a.Issue? {
      assert !s.inflight[a.rid].Holds(f);
    }
  }

  lemma {:induction false} NotAliveForever(ttl: Seconds, s: System, acts: seq<Action>, f: Fam)
    requires Inv(ttl, s) && Runs(ttl, s, acts) && f in FamsOf(s.issued) && !Alive(s, f)
    ensures IssuedIn(After(ttl, s, acts), f) == IssuedIn(s, f)
    decreases |acts|
  {
    if acts != [] {
      InvNext(ttl, s, acts[0]);
      IssuedGrows(ttl, s, acts[0]);
      NotAliveNext(ttl, s, acts[0], f);
      NotAliveForever(ttl, Next(ttl, s, acts[0]), acts[1..], f);
    }
  }

  // A login and a logout reach a state with a marked family that can still issue: its token and
  // marker expire together, and a rotation that consumed the token before finds no marker after.
  lemma MarkerAloneIsNotEnough(ttl: Seconds)
    ensures exists acts ::
              && Runs(ttl, INITIAL, acts)
              && var s := After(ttl, INITIAL, acts);
              s.store.revoked.Keys == {7} && MayIssue(ttl, s, 7)
  {
    var acts := [Login("u", 5, 7), Logout(5)];
    var s1 := Next(ttl, INITIAL, acts[0]);
    assert s1.issued[5].fam == 7;
    var s2 := Next(ttl, s1, acts[1]);
    Prepend(ttl, s1, acts[1], []);
    Prepend(ttl, INITIAL, acts[0], [acts[1]]);
    assert acts == [acts[0]] + [acts[1]];
    assert After(ttl, INITIAL, acts) == s2;
    InvInitial(ttl);
    InvAfter(ttl, INITIAL, acts);
    assert s2.store.tokens[5].fam == 7;
    assert s2.issued[5].fam in FamsOf(s2.issued);
    MayIssueIffAlive(ttl, s2, 7);
  }
}

// `revoke_user` as the two calls it makes: SMEMBERS, then one transaction that marks what was read.
module RefreshRevocations {
  import opened RefreshStore
  import opened RefreshProtocol

  datatype Reading = Reading(sub: Sub, fams: set<Fam>)

  // The protocol, and the revocations between their two calls.
  datatype Split = Split(sys: System, readings: map<Rid, Reading>)

  datatype Step =
    | Act(a: Action)                          // anything but a revocation in one piece
    | ReadFamilies(rid: Rid, sub: Sub)        // SMEMBERS
    | MarkFamilies(rid: Rid)                  // MULTI: SET per family, DEL of the index
    | GiveUp(rid: Rid)

  const START := Split(INITIAL, map[])

  predicate Possible(s: Split, step: Step) {
    match step
    case Act(a) => !a.RevokeOwner? && Enabled(s.sys, a)
    case ReadFamilies(rid, _) => rid !in s.readings
    case MarkFamilies(rid) => rid in s.readings
    case GiveUp(rid) => rid in s.readings
  }

  function MarkRead(st: Store, ttl: Seconds, now: Time, r: Reading): Store {
    st.(revoked := st.revoked + Marks(r.fams, now + ttl), index := st.index - {r.sub})
  }

  function Take(ttl: Seconds, s: Split, step: Step): Split
    requires Possible(s, step)
  {
    match step
    case Act(a) => s.(sys := Next(ttl, s.sys, a))
    case ReadFamilies(rid, sub) =>
      s.(readings := s.readings[rid := Reading(sub, Families(s.sys.store, s.sys.now, sub))])
    case MarkFamilies(rid) =>
      Split(s.sys.(store := MarkRead(s.sys.store, ttl, s.sys.now, s.readings[rid])), s.readings - {rid})
    case GiveUp(rid) => s.(readings := s.readings - {rid})
  }

  predicate Steps(ttl: Seconds, s: Split, steps: seq<Step>)
    decreases |steps|
  {
    steps == [] || (Possible(s, steps[0]) && Steps(ttl, Take(ttl, s, steps[0]), steps[1..]))
  }

  function Then(ttl: Seconds, s: Split, steps: seq<Step>): Split
    requires Steps(ttl, s, steps)
    decreases |steps|
  {
    if steps == [] then s else Then(ttl, Take(ttl, s, steps[0]), steps[1..])
  }

  // Undisturbed, the two calls are the revocation in one piece.
  lemma TwoCallsAreOne(ttl: Seconds, st: Store, now: Time, sub: Sub)
    ensures MarkRead(st, ttl, now, Reading(sub, Families(st, now, sub))) == RevokeUser(st, ttl, now, sub)
  {
  }

  ghost predicate SplitInv(ttl: Seconds, s: Split) {
    && Agrees(s.sys) && Bounded(ttl, s.sys)
    && forall rid :: rid in s.readings ==> s.readings[rid].fams <= FamsOf(s.sys.issued)
  }

  lemma SplitInvNext(ttl: Seconds, s: Split, step: Step)
    requires SplitInv(ttl, s) && Possible(s, step)
    ensures SplitInv(ttl, Take(ttl, s, step))
  {
    match step
    case Act(a) =>
      AgreesNext(ttl, s.sys, a);
      BoundedNext(ttl, s.sys, a);
      IssuedGrows(ttl, s.sys, a);
    case MarkFamilies(rid) => MarkedAgrees(ttl, s, rid);
    case _ =>
  }

  lemma MarkedAgrees(ttl: Seconds, s: Split, rid: Rid)
    requires SplitInv(ttl, s) && rid in s.readings
    ensures SplitInv(ttl, Take(ttl, s, MarkFamilies(rid)))
  {
    var t := Take(ttl, s, MarkFamilies(rid)).sys;
    forall r | r in t.inflight ensures PhaseAgrees(t, t.inflight[r]) {
      assert PhaseAgrees(s.sys, s.sys.inflight[r]);
    }
  }

  lemma {:induction false} SplitInvAfter(ttl: Seconds, s: Split, steps: seq<Step>)
    requires SplitInv(ttl, s) && Steps(ttl, s, steps)
    ensures SplitInv(ttl, Then(ttl, s, steps))
    decreases |steps|
  {
    if steps != [] {
      SplitInvNext(ttl, s, steps[0]);
      SplitInvAfter(ttl, Take(ttl, s, steps[0]), steps[1..]);
    }
  }

  // Used, expired, or under a marker that expires no earlier.
  predicate Over(s: System, j: Jti) {
    && j in s.issued
    && (j in s.store.tokens ==>
          var t := s.store.tokens[j];
          t.exp <= s.now || (t.fam in s.store.revoked && t.exp <= s.store.revoked[t.fam]))
  }

  lemma OverNext(ttl: Seconds, s: Split, step: Step, j: Jti)
    requires SplitInv(ttl, s) && Possible(s, step) && Over(s.sys, j)
    ensures Over(Take(ttl, s, step).sys, j)
  {
    if step.Act? {
      IssuedGrows(ttl, s.sys, step.a);
    }
  }

  lemma {:induction false} OverForever(ttl: Seconds, s: Split, steps: seq<Step>, j: Jti)
    requires SplitInv(ttl, s) && Steps(ttl, s, steps) && Over(s.sys, j)
    ensures !Usable(Then(ttl, s, steps).sys.store, Then(ttl, s, steps).sys.now, j)
    decreases |steps|
  {
    if steps != [] {
      OverNext(ttl, s, steps[0], j);
      SplitInvNext(ttl, s, steps[0]);
      OverForever(ttl, Take(ttl, s, steps[0]), steps[1..], j);
    }
  }

  predicate Undisturbed(steps: seq<Step>, rid: Rid) {
    forall i :: 0 <= i < |steps| ==> steps[i] != MarkFamilies(rid) && steps[i] != GiveUp(rid)
  }

  lemma {:induction false} ReadingWaits(ttl: Seconds, s: Split, steps: seq<Step>, rid: Rid)
    requires Steps(ttl, s, steps) && rid in s.readings && Undisturbed(steps, rid)
    ensures rid in Then(ttl, s, steps).readings && Then(ttl, s, steps).readings[rid] == s.readings[rid]
    decreases |steps|
  {
    if steps != [] {
      assert steps[0] != MarkFamilies(rid) && steps[0] != GiveUp(rid);
      ReadingWaits(ttl, Take(ttl, s, steps[0]), steps[1..], rid);
    }
  }

  lemma MarkingEndsRead(ttl: Seconds, s: Split, rid: Rid, j: Jti)
    requires SplitInv(ttl, s) && rid in s.readings && j in s.sys.store.tokens
    ensures
      var t, f := Take(ttl, s, MarkFamilies(rid)).sys, s.sys.store.tokens[j].fam;
      && (Usable(t.store, t.now, j) <==> Usable(s.sys.store, s.sys.now, j) && f !in s.readings[rid].fams)
      && (f in s.readings[rid].fams ==> Over(t, j))
  {
  }

  // A revocation in any run, with other steps between its two calls: a token stays usable exactly if
  // its family was not among those read, and one whose family was is never usable again.
  lemma RevocationEndsWhatItRead(ttl: Seconds, before: seq<Step>, rid: Rid, sub: Sub, between: seq<Step>,
                                 after: seq<Step>, j: Jti)
    requires Steps(ttl, START, before) && Possible(Then(ttl, START, before), ReadFamilies(rid, sub))
    requires Steps(ttl, Take(ttl, Then(ttl, START, before), ReadFamilies(rid, sub)), between)
            && Undisturbed(between, rid)
    requires
      var s2 := Then(ttl, Take(ttl, Then(ttl, START, before), ReadFamilies(rid, sub)), between);
      && Possible(s2, MarkFamilies(rid)) && Steps(ttl, Take(ttl, s2, MarkFamilies(rid)), after)
      && j in s2.sys.store.tokens
    ensures
      var s0 := Then(ttl, START, before);
      var s2 := Then(ttl, Take(ttl, s0, ReadFamilies(rid, sub)), between);
      var s3 := Take(ttl, s2, MarkFamilies(rid));
      var t := Then(ttl, s3, after);
      var read, f := Families(s0.sys.store, s0.sys.now, sub), s2.sys.store.tokens[j].fam;
      && (Usable(s3.sys.store, s3.sys.now, j) <==> Usable(s2.sys.store, s2.sys.now, j) && f !in read)
      && (f in read ==> !Usable(t.sys.store, t.sys.now, j))
  {
    var s0 := Then(ttl, START, before);
    var s1 := Take(ttl, s0, ReadFamilies(rid, sub));
    var s2 := Then(ttl, s1, between);
    var s3 := Take(ttl, s2, MarkFamilies(rid));
    SplitInvAfter(ttl, START, before);
    SplitInvNext(ttl, s0, ReadFamilies(rid, sub));
    SplitInvAfter(ttl, s1, between);
    ReadingWaits(ttl, s1, between, rid);
    SplitInvNext(ttl, s2, MarkFamilies(rid));
    MarkingEndsRead(ttl, s2, rid, j);
    hide Usable, Over, SplitInv, Steps, Then, MarkRead;
    if s2.sys.store.tokens[j].fam in Families(s0.sys.store, s0.sys.now, sub) {
      OverForever(ttl, s3, after, j);
    }
  }

  lemma Cons(ttl: Seconds, s: Split, step: Step, steps: seq<Step>)
    requires Possible(s, step) && Steps(ttl, Take(ttl, s, step), steps)
    ensures Steps(ttl, s, [step] + steps) && Then(ttl, s, [step] + steps) == Then(ttl, Take(ttl, s, step), steps)
  {
    assert ([step] + steps)[1..] == steps;
  }

  // A login between the two calls is not read. Its token stays usable, and its family leaves the index
  // with the transaction, so the next revocation does not read it either.
  lemma RegisteredButUnread(ttl: Seconds, sub: Sub, jti: Jti, fam: Fam) returns (steps: seq<Step>)
    ensures steps == [ReadFamilies(1, sub), Act(Login(sub, jti, fam)), MarkFamilies(1), ReadFamilies(2, sub),
            MarkFamilies(2)]
    ensures Steps(ttl, START, steps)
    ensures
      var t := Then(ttl, START, steps).sys;
      Usable(t.store, t.now, jti) && t.store.tokens[jti].sub == sub && sub !in t.store.index
  {
    var s1 := Take(ttl, START, ReadFamilies(1, sub));
    var s2 := Take(ttl, s1, Act(Login(sub, jti, fam)));
    var s3 := Take(ttl, s2, MarkFamilies(1));
    var s4 := Take(ttl, s3, ReadFamilies(2, sub));
    steps := [];
    Cons(ttl, s4, MarkFamilies(2), steps);
    steps := [MarkFamilies(2)] + steps;
    Cons(ttl, s3, ReadFamilies(2, sub), steps);
    steps := [ReadFamilies(2, sub)] + steps;
    Cons(ttl, s2, MarkFamilies(1), steps);
    steps := [MarkFamilies(1)] + steps;
    Cons(ttl, s1, Act(Login(sub, jti, fam)), steps);
    steps := [Act(Login(sub, jti, fam))] + steps;
    Cons(ttl, START, ReadFamilies(1, sub), steps);
    steps := [ReadFamilies(1, sub)] + steps;
  }
}

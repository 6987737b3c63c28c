// Whole operations of the authentication service over the refresh store, and the two classes
// that carry them out. Each operation is a run of the interleaved protocol, taken without
// interruption; this is what makes a revocation permanent.

module RefreshOperations {
  import opened RefreshStore
  import opened RefreshProtocol

  // What `rotate` does to the store, and whether it hands out a new pair.
  function Rotate(st: Store, ttl: Seconds, now: Time, c: Claims, next: Jti, active: bool): (Store, bool) {
    if !TokenLive(st, now, c.jti) then (RevokeFamily(st, ttl, now, c.fam), false)
    else
      var used := Consume(st, c.jti);
      if IsRevoked(used, now, c.fam) then (used, false)
      else if !active then (RevokeFamily(used, ttl, now, c.fam), false)
      else (Register(used, ttl, now, next, c.sub, c.fam), true)
  }

  datatype Op =
    | Wait(t: Time)
    | SignIn(sub: Sub, jti: Jti, fam: Fam)
    | Refresh(jti: Jti, next: Jti, active: bool)
    | SignOut(jti: Jti)
    | RevokeAll(sub: Sub)

  predicate Allowed(s: System, op: Op) {
    match op
    case Wait(t) => s.now <= t
    case SignIn(sub, jti, fam) => jti !in s.issued && fam !in FamsOf(s.issued)
    case Refresh(jti, next, active) => jti in s.issued && next !in s.issued
    case SignOut(jti) => jti in s.issued
    case RevokeAll(sub) => true
  }

  function Do(ttl: Seconds, s: System, op: Op): System
    requires Allowed(s, op)
  {
    match op
    case Wait(t) => s.(now := t)
    case SignIn(sub, jti, fam) =>
      s.(store := Register(s.store, ttl, s.now, jti, sub, fam), issued := s.issued[jti := Claims(jti, fam, sub)])
    case Refresh(jti, next, active) =>
      var c := s.issued[jti];
      var (st, ok) := Rotate(s.store, ttl, s.now, c, next, active);
      s.(store := st,
         issued := if ok then s.issued[next := Claims(next, c.fam, c.sub)] else s.issued,
         consumed := if TokenLive(s.store, s.now, jti) then s.consumed + [jti] else s.consumed)
    case SignOut(jti) => s.(store := RevokeFamily(s.store, ttl, s.now, s.issued[jti].fam))
    case RevokeAll(sub) => s.(store := RevokeUser(s.store, ttl, s.now, sub))
  }

  // The awaits of one operation, in order.
  function Script(s: System, op: Op): seq<Action>
    requires Allowed(s, op)
  {
    match op
    case Wait(t) => [Tick(t)]
    case SignIn(sub, jti, fam) => [Login(sub, jti, fam)]
    case Refresh(jti, next, active) =>
      if !TokenLive(s.store, s.now, jti) then [Present(0, jti), Condemn(0)]
      else if IsRevoked(s.store, s.now, s.issued[jti].fam) then [Present(0, jti), Check(0)]
      else [Present(0, jti), Check(0), Lookup(0, active), if active then Issue(0, next) else Condemn(0)]
    case SignOut(jti) => [Logout(jti)]
    case RevokeAll(sub) => [RevokeOwner(sub)]
  }

  predicate Legal(ttl: Seconds, s: System, ops: seq<Op>)
    decreases |ops|
  {
    ops == [] || (Allowed(s, ops[0]) && Legal(ttl, Do(ttl, s, ops[0]), ops[1..]))
  }

  function DoAll(ttl: Seconds, s: System, ops: seq<Op>): System
    requires Legal(ttl, s, ops)
    decreases |ops|
  {
    if ops == [] then s else DoAll(ttl, Do(ttl, s, ops[0]), ops[1..])
  }

  ghost predicate IdleInv(ttl: Seconds, s: System) {
    && Inv(ttl, s)
    && s.inflight == map[]
    && (forall f :: f in s.store.revoked ==> Dead(0, s, f))
  }

  lemma Then(ttl: Seconds, s: System, a: Action, acts: seq<Action>)
    requires Enabled(s, a) && Prompt(0, s)
    requires Runs(ttl, Next(ttl, s, a), acts) && PromptRun(ttl, 0, Next(ttl, s, a), acts)
    ensures Runs(ttl, s, [a] + acts) && PromptRun(ttl, 0, s, [a] + acts)
    ensures After(ttl, s, [a] + acts) == After(ttl, Next(ttl, s, a), acts)
  {
    assert ([a] + acts)[1..] == acts;
  }

  // An operation is an uninterrupted run of the protocol, over within the same instant.
  lemma OperationIsRun(ttl: Seconds, s: System, op: Op)
    requires Agrees(s) && s.inflight == map[] && Allowed(s, op)
    ensures Runs(ttl, s, Script(s, op)) && PromptRun(ttl, 0, s, Script(s, op))
    ensures After(ttl, s, Script(s, op)) == Do(ttl, s, op)
  {
    var acts := Script(s, op);
    var s1 := Next(ttl, s, acts[0]);
    if |acts| == 1 {
      Then(ttl, s, acts[0], []);
      assert acts == [acts[0]] + [];
    } else {
      var s2 := Next(ttl, s1, acts[1]);
      if |acts| == 2 {
        assert s2 == Do(ttl, s, op);
        Then(ttl, s1, acts[1], []);
        Then(ttl, s, acts[0], [acts[1]]);
        assert acts == [acts[0]] + [acts[1]];
      } else {
        FullRotationIsRun(ttl, s, op);
      }
    }
  }

  lemma FullRotationIsRun(ttl: Seconds, s: System, op: Op)
    requires Agrees(s) && s.inflight == map[] && Allowed(s, op) && |Script(s, op)| == 4
    ensures Runs(ttl, s, Script(s, op)) && PromptRun(ttl, 0, s, Script(s, op))
    ensures After(ttl, s, Script(s, op)) == Do(ttl, s, op)
  {
    var acts := Script(s, op);
    var s1 := Next(ttl, s, acts[0]);
    var s2 := Next(ttl, s1, acts[1]);
    var s3 := Next(ttl, s2, acts[2]);
    var s4 := Next(ttl, s3, acts[3]);
    assert s4 == Do(ttl, s, op);
    Then(ttl, s3, acts[3], []);
    Then(ttl, s2, acts[2], [acts[3]]);
    Then(ttl, s1, acts[1], [acts[2], acts[3]]);
    Then(ttl, s, acts[0], [acts[1], acts[2], acts[3]]);
    assert acts == [acts[0]] + [acts[1], acts[2], acts[3]];
  }

  // ---------------------------------------------------------------------------------------
  // A revocation is for good
  // ---------------------------------------------------------------------------------------

  lemma DoKeepsInv(ttl: Seconds, s: System, op: Op)
    requires IdleInv(ttl, s) && Allowed(s, op)
    ensures IdleInv(ttl, Do(ttl, s, op))
    ensures forall f :: Dead(0, s, f) ==> Dead(0, Do(ttl, s, op), f) && IssuedIn(Do(ttl, s, op), f) == IssuedIn(s, f)
  {
    OperationIsRun(ttl, s, op);
    var t := Do(ttl, s, op);
    InvAfter(ttl, s, Script(s, op));
    forall f | Dead(0, s, f) ensures Dead(0, t, f) && IssuedIn(t, f) == IssuedIn(s, f) {
      DeadForever(ttl, 0, s, Script(s, op), f);
    }
    forall f | f in t.store.revoked ensures Dead(0, t, f) {
      if f !in s.store.revoked {
        assert t.store.revoked[f] == s.now + ttl == t.now + ttl;
      }
    }
  }

  lemma {:induction false} DeadStaysDead(ttl: Seconds, s: System, ops: seq<Op>, f: Fam)
    requires IdleInv(ttl, s) && Legal(ttl, s, ops) && Dead(0, s, f)
    ensures IdleInv(ttl, DoAll(ttl, s, ops)) && Dead(0, DoAll(ttl, s, ops), f)
    ensures IssuedIn(DoAll(ttl, s, ops), f) == IssuedIn(s, f)
    decreases |ops|
  {
    if ops != [] {
      DoKeepsInv(ttl, s, ops[0]);
      DeadStaysDead(ttl, Do(ttl, s, ops[0]), ops[1..], f);
    }
  }

  lemma {:induction false} IdleInvAlways(ttl: Seconds, s: System, ops: seq<Op>)
    requires IdleInv(ttl, s) && Legal(ttl, s, ops)
    ensures IdleInv(ttl, DoAll(ttl, s, ops))
    decreases |ops|
  {
    if ops != [] {
      DoKeepsInv(ttl, s, ops[0]);
      IdleInvAlways(ttl, Do(ttl, s, ops[0]), ops[1..]);
    }
  }

  // No token of the family can be rotated, whoever presents it and whatever the user lookup says.
  ghost predicate NeverRotates(ttl: Seconds, s: System, f: Fam) {
    forall ops, jti, next, active ::
      Legal(ttl, s, ops) && jti in DoAll(ttl, s, ops).issued && DoAll(ttl, s, ops).issued[jti].fam == f ==>
        !Rotate(DoAll(ttl, s, ops).store, ttl, DoAll(ttl, s, ops).now, DoAll(ttl, s, ops).issued[jti], next, active).1
  }

  lemma DeadNeverRotates(ttl: Seconds, s: System, f: Fam)
    requires IdleInv(ttl, s) && Dead(0, s, f)
    ensures NeverRotates(ttl, s, f)
  {
    forall ops, jti, next, active |
      Legal(ttl, s, ops) && jti in DoAll(ttl, s, ops).issued && DoAll(ttl, s, ops).issued[jti].fam == f
      ensures !Rotate(DoAll(ttl, s, ops).store, ttl, DoAll(ttl, s, ops).now, DoAll(ttl, s, ops).issued[jti], next,
              active).1
    {
      DeadStaysDead(ttl, s, ops, f);
      var t := DoAll(ttl, s, ops);
      assert t.issued[jti].jti == jti;
    }
  }

  // Once a family has been revoked, for whatever reason and however long ago, it is over.
  lemma RevokedFamilyNeverRotates(ttl: Seconds, ops: seq<Op>, f: Fam)
    requires Legal(ttl, INITIAL, ops) && f in DoAll(ttl, INITIAL, ops).store.revoked
    ensures NeverRotates(ttl, DoAll(ttl, INITIAL, ops), f)
  {
    InvInitial(ttl);
    IdleInvAlways(ttl, INITIAL, ops);
    DeadNeverRotates(ttl, DoAll(ttl, INITIAL, ops), f);
  }

  // A rotation that is refused ends its family: one whose token was used before, is unknown to the
  // store or has expired, one whose user is missing or inactive, and one of a revoked family.
  lemma RefusedRotationEndsFamily(ttl: Seconds, ops: seq<Op>, jti: Jti, next: Jti, active: bool)
    requires Legal(ttl, INITIAL, ops) && Allowed(DoAll(ttl, INITIAL, ops), Refresh(jti, next, active))
    ensures
      var s := DoAll(ttl, INITIAL, ops);
      var f, t := s.issued[jti].fam, Do(ttl, s, Refresh(jti, next, active));
      if TokenLive(s.store, s.now, jti) && !IsRevoked(s.store, s.now, f) && active
      then next in t.issued && t.issued[next].fam == f && TokenLive(t.store, t.now, next)
      else t.issued == s.issued && NeverRotates(ttl, t, f)
  {
    InvInitial(ttl);
    IdleInvAlways(ttl, INITIAL, ops);
    var s := DoAll(ttl, INITIAL, ops);
    var t := Do(ttl, s, Refresh(jti, next, active));
    DoKeepsInv(ttl, s, Refresh(jti, next, active));
    assert s.issued[jti].jti == jti;
    if !(TokenLive(s.store, s.now, jti) && !IsRevoked(s.store, s.now, s.issued[jti].fam) && active) {
      DeadNeverRotates(ttl, t, s.issued[jti].fam);
    }
  }

  // Presenting a token twice, whatever happened in between, ends its family.
  lemma ReuseEndsFamily(ttl: Seconds, before: seq<Op>, jti: Jti, n1: Jti, a1: bool, between: seq<Op>, n2: Jti, a2: bool)
    requires Legal(ttl, INITIAL, before) && Allowed(DoAll(ttl, INITIAL, before), Refresh(jti, n1, a1))
    requires
      var s := Do(ttl, DoAll(ttl, INITIAL, before), Refresh(jti, n1, a1));
      Legal(ttl, s, between) && Allowed(DoAll(ttl, s, between), Refresh(jti, n2, a2))
    ensures
      var s := DoAll(ttl, Do(ttl, DoAll(ttl, INITIAL, before), Refresh(jti, n1, a1)), between);
      NeverRotates(ttl, Do(ttl, s, Refresh(jti, n2, a2)), s.issued[jti].fam)
  {
    InvInitial(ttl);
    IdleInvAlways(ttl, INITIAL, before);
    var s0 := DoAll(ttl, INITIAL, before);
    DoKeepsInv(ttl, s0, Refresh(jti, n1, a1));
    var s1 := Do(ttl, s0, Refresh(jti, n1, a1));
    assert s0.issued[jti].jti == jti;
    SpentStaysSpent(ttl, s1, between, jti);
    var s2 := DoAll(ttl, s1, between);
    IdleInvAlways(ttl, s1, between);
    DoKeepsInv(ttl, s2, Refresh(jti, n2, a2));
    assert s2.issued[jti].jti == jti;
    DeadNeverRotates(ttl, Do(ttl, s2, Refresh(jti, n2, a2)), s2.issued[jti].fam);
  }

  lemma {:induction false} SpentStaysSpent(ttl: Seconds, s: System, ops: seq<Op>, jti: Jti)
    requires Legal(ttl, s, ops) && jti in s.issued && !TokenLive(s.store, s.now, jti)
    ensures !TokenLive(DoAll(ttl, s, ops).store, DoAll(ttl, s, ops).now, jti)
    decreases |ops|
  {
    if ops != [] {
      SpentStaysSpent(ttl, Do(ttl, s, ops[0]), ops[1..], jti);
    }
  }

  // Logging out ends the token's family, used or not.
  lemma LogoutEndsFamily(ttl: Seconds, ops: seq<Op>, jti: Jti)
    requires Legal(ttl, INITIAL, ops) && Allowed(DoAll(ttl, INITIAL, ops), SignOut(jti))
    ensures
      var s := DoAll(ttl, INITIAL, ops);
      NeverRotates(ttl, Do(ttl, s, SignOut(jti)), s.issued[jti].fam)
  {
    InvInitial(ttl);
    IdleInvAlways(ttl, INITIAL, ops);
    var s := DoAll(ttl, INITIAL, ops);
    DoKeepsInv(ttl, s, SignOut(jti));
    DeadNeverRotates(ttl, Do(ttl, s, SignOut(jti)), s.issued[jti].fam);
  }

  // ---------------------------------------------------------------------------------------
  // Until then it lives
  // ---------------------------------------------------------------------------------------

  // The operation is a logout, a refused rotation or a revocation that concerns the family.
  predicate Touches(s: System, op: Op, f: Fam)
    requires Allowed(s, op)
  {
    match op
    case SignOut(jti) => s.issued[jti].fam == f
    case RevokeAll(sub) => f in Families(s.store, s.now, sub)
    case Refresh(jti, next, active) =>
      s.issued[jti].fam == f
      && !(TokenLive(s.store, s.now, jti) && !IsRevoked(s.store, s.now, f) && active)
    case _ => false
  }

  predicate Untouched(ttl: Seconds, s: System, ops: seq<Op>, f: Fam)
    requires Legal(ttl, s, ops)
    decreases |ops|
  {
    ops == [] || (!Touches(s, ops[0], f) && Untouched(ttl, Do(ttl, s, ops[0]), ops[1..], f))
  }

  predicate NeverPresented(ops: seq<Op>, jti: Jti) {
    forall i :: 0 <= i < |ops| && ops[i].Refresh? ==> ops[i].jti != jti
  }

  lemma {:induction false} TokenStays(ttl: Seconds, s: System, ops: seq<Op>, jti: Jti)
    requires Legal(ttl, s, ops) && NeverPresented(ops, jti) && jti in s.issued && jti in s.store.tokens
    requires forall j :: j in s.issued ==> s.issued[j].jti == j
    ensures jti in DoAll(ttl, s, ops).store.tokens && DoAll(ttl, s, ops).store.tokens[jti] == s.store.tokens[jti]
    ensures jti in DoAll(ttl, s, ops).issued && DoAll(ttl, s, ops).issued[jti] == s.issued[jti]
    decreases |ops|
  {
    if ops != [] {
      assert !(ops[0].Refresh? && ops[0].jti == jti);
      TokenStays(ttl, Do(ttl, s, ops[0]), ops[1..], jti);
    }
  }

  lemma {:induction false} UnmarkedStays(ttl: Seconds, s: System, ops: seq<Op>, f: Fam)
    requires Legal(ttl, s, ops) && Untouched(ttl, s, ops, f) && f !in s.store.revoked
    requires forall j :: j in s.issued ==> s.issued[j].jti == j
    ensures f !in DoAll(ttl, s, ops).store.revoked
    decreases |ops|
  {
    if ops != [] {
      UnmarkedStays(ttl, Do(ttl, s, ops[0]), ops[1..], f);
    }
  }

  // The operation hands out the token `jti` of the family.
  predicate HandsOut(ttl: Seconds, s: System, op: Op, jti: Jti, f: Fam)
    requires Allowed(s, op)
  {
    || (op.SignIn? && op.jti == jti && op.fam == f)
    || (op.Refresh? && op.next == jti && s.issued[op.jti].fam == f
        && Rotate(s.store, ttl, s.now, s.issued[op.jti], op.next, op.active).1)
  }

  lemma MarkedIsRefused(ttl: Seconds, s: System, op: Op)
    requires IdleInv(ttl, s) && op.Refresh? && Allowed(s, op)
    ensures s.issued[op.jti].fam in s.store.revoked ==>
              !Rotate(s.store, ttl, s.now, s.issued[op.jti], op.next, op.active).1
  {
    if s.issued[op.jti].fam in s.store.revoked {
      DeadNeverRotates(ttl, s, s.issued[op.jti].fam);
      assert Legal(ttl, s, []) && DoAll(ttl, s, []) == s;
      assert op.jti in DoAll(ttl, s, []).issued;
    }
  }

  lemma HandedOutIsFresh(ttl: Seconds, s: System, op: Op, jti: Jti, f: Fam)
    requires IdleInv(ttl, s) && Allowed(s, op) && HandsOut(ttl, s, op, jti, f)
    ensures
      var t := Do(ttl, s, op);
      && jti in t.issued && t.issued[jti].jti == jti && t.issued[jti].fam == f && f !in t.store.revoked
      && jti in t.store.tokens && t.store.tokens[jti].exp == s.now + ttl && t.now == s.now
  {
    if op.Refresh? {
      MarkedIsRefused(ttl, s, op);
    }
  }

  // How long a sign-in lasts. A token handed out and not presented is live exactly for its ttl; and as
  // long as no logout, refusal or revocation touches its family, presenting it hands out the next one
  // exactly within that time, if the user is active.
  lemma TokenRotatesForItsTtl(ttl: Seconds, before: seq<Op>, op: Op, jti: Jti, f: Fam, between: seq<Op>, next: Jti,
                              active: bool)
    requires Legal(ttl, INITIAL, before) && Allowed(DoAll(ttl, INITIAL, before), op)
    requires HandsOut(ttl, DoAll(ttl, INITIAL, before), op, jti, f)
    requires
      var s := Do(ttl, DoAll(ttl, INITIAL, before), op);
      && Legal(ttl, s, between) && NeverPresented(between, jti)
      && Allowed(DoAll(ttl, s, between), Refresh(jti, next, active))
    ensures
      var at, s := DoAll(ttl, INITIAL, before).now, Do(ttl, DoAll(ttl, INITIAL, before), op);
      var t := DoAll(ttl, s, between);
      && (TokenLive(t.store, t.now, jti) <==> t.now < at + ttl)
      && (Untouched(ttl, s, between, f) ==>
            (next in Do(ttl, t, Refresh(jti, next, active)).issued <==> t.now < at + ttl && active))
  {
    InvInitial(ttl);
    IdleInvAlways(ttl, INITIAL, before);
    var s0 := DoAll(ttl, INITIAL, before);
    HandedOutIsFresh(ttl, s0, op, jti, f);
    DoKeepsInv(ttl, s0, op);
    var s := Do(ttl, s0, op);
    TokenStays(ttl, s, between, jti);
    if Untouched(ttl, s, between, f) {
      UnmarkedStays(ttl, s, between, f);
    }
  }

  // Revoking a user ends every family this user ever signed in with.
  lemma RevokedUserNeverRotates(ttl: Seconds, ops: seq<Op>, sub: Sub, jti: Jti)
    requires Legal(ttl, INITIAL, ops) && jti in DoAll(ttl, INITIAL, ops).issued
    requires DoAll(ttl, INITIAL, ops).issued[jti].sub == sub
    ensures NeverRotates(ttl, Do(ttl, DoAll(ttl, INITIAL, ops), RevokeAll(sub)),
            DoAll(ttl, INITIAL, ops).issued[jti].fam)
  {
    InvInitial(ttl);
    IdleInvAlways(ttl, INITIAL, ops);
    var s := DoAll(ttl, INITIAL, ops);
    var f := s.issued[jti].fam;
    var t := Do(ttl, s, RevokeAll(sub));
    DoKeepsInv(ttl, s, RevokeAll(sub));
    forall j | j in t.store.tokens && t.store.tokens[j].fam == f
      ensures t.store.tokens[j].exp <= t.now || (f in t.store.revoked && t.store.tokens[j].exp <= t.store.revoked[f])
    {
      assert s.issued[j].sub == sub;
      assert Covered(s.store, s.now, j);
    }
    assert t.issued[jti].fam == f;
    DeadNeverRotates(ttl, t, f);
  }
}

module RefreshTokens {
  import opened Basics
  import opened RefreshStore
  import opened RefreshProtocol
  import opened RefreshOperations

  class RefreshTokenStore {
    const ttl: Seconds
    var tokens: map<Jti, Record>
    var index: map<Sub, Index>
    var revoked: map<Fam, Time>

    constructor (ttl: Seconds)
      ensures this.ttl == ttl && Contents() == EMPTY
    {
      this.ttl := ttl;
      tokens, index, revoked := map[], map[], map[];
    }

    function Contents(): Store
      reads this
    {
      Store(tokens, index, revoked)
    }

    method Register(now: Time, jti: Jti, sub: Sub, fam: Fam)
      modifies this
      ensures Contents() == RefreshStore.Register(old(Contents()), ttl, now, jti, sub, fam)
      ensures tokens == old(tokens)[jti := Record(fam, sub, now + ttl)] && revoked == old(revoked)
      ensures sub in index && fam in index[sub].fams && index[sub].exp == now + ttl
    {
      tokens := tokens[jti := Record(fam, sub, now + ttl)];
      var fams := if sub in index && now < index[sub].exp then index[sub].fams else {};
      index := index[sub := Index(fams + {fam}, now + ttl)];
    }

    method Consume(now: Time, jti: Jti) returns (record: Option<Record>)
      modifies this
      ensures record == (if TokenLive(old(Contents()), now, jti) then Some(old(tokens)[jti]) else None)
      ensures Contents() == if record.Some? then RefreshStore.Consume(old(Contents()), jti) else old(Contents())
    {
      if jti in tokens && now < tokens[jti].exp {
        record := Some(tokens[jti]);
        tokens := tokens - {jti};
      } else {
        record := None;
      }
    }

    method RevokeFamily(now: Time, fam: Fam)
      modifies this
      ensures Contents() == RefreshStore.RevokeFamily(old(Contents()), ttl, now, fam)
    {
      revoked := revoked[fam := now + ttl];
    }

    method IsFamilyRevoked(now: Time, fam: Fam) returns (r: bool)
      ensures r == IsRevoked(Contents(), now, fam)
    {
      r := fam in revoked && now < revoked[fam];
    }

    // One SET per family of the user's index, then the index itself.
    method RevokeUser(now: Time, sub: Sub)
      modifies this
      ensures Contents() == RefreshStore.RevokeUser(old(Contents()), ttl, now, sub)
    {
      var families := if sub in index && now < index[sub].exp then index[sub].fams else {};
      var todo := families;
      while todo != {}
        invariant todo <= families
        invariant revoked == old(revoked) + Marks(families - todo, now + ttl)
        invariant tokens == old(tokens) && index == old(index)
        decreases todo
      {
        var fam :| fam in todo;
        revoked := revoked[fam := now + ttl];
        todo := todo - {fam};
      }
      assert families - todo == families;
      index := index - {sub};
    }
  }

  datatype TokenKind = Access | RefreshKind

  // A decoded JWT with the claims `decode` looks at; `fam` is present on refresh tokens only.
  datatype Jwt = Jwt(kind: TokenKind, claims: Claims, iat: Time, exp: Time)

  // Sections 4.1.4 and 4.1.5 of RFC 7519, with the configured leeway.
  predicate Accepted(t: Jwt, now: Time, leeway: nat) {
    t.kind == RefreshKind && t.iat - leeway <= now < t.exp + leeway
  }

  // What is issued is accepted for its ttl, and the leeway on both sides; an access token never is.
  lemma AcceptedForItsTtl(t: Jwt, at: Time, ttl: Seconds, now: Time, leeway: nat)
    requires t.iat == at && t.exp == at + ttl
    ensures t.kind.RefreshKind? && at <= now < at + ttl ==> Accepted(t, now, leeway)
    ensures Accepted(t, now, leeway) ==> t.kind.RefreshKind? && at - leeway <= now < at + ttl + leeway
  {
  }

  class AuthService {
    const store: RefreshTokenStore
    const leeway: nat
    var active: map<Sub, bool>     // the users that exist, and whether they are active

    constructor (store: RefreshTokenStore, leeway: nat)
      ensures this.store == store && this.leeway == leeway
    {
      this.store := store;
      this.leeway := leeway;
    }

    predicate IsActive(sub: Sub)
      reads this
    {
      sub in active && active[sub]
    }

    method IssueFor(now: Time, sub: Sub, fam: Fam, jti: Jti) returns (token: Jwt)
      modifies store
      ensures store.Contents() == Register(old(store.Contents()), store.ttl, now, jti, sub, fam)
      ensures token == Jwt(RefreshKind, Claims(jti, fam, sub), now, now + store.ttl)
    {
      token := Jwt(RefreshKind, Claims(jti, fam, sub), now, now + store.ttl);
      store.Register(now, jti, sub, fam);
    }

    // `rotate`: consume, refuse revoked families and missing or inactive users, then issue.
    method RotateToken(now: Time, token: Jwt, next: Jti) returns (r: Option<Jwt>)
      modifies store
      ensures r.Some? <==>
        && token.kind.RefreshKind? && token.iat - leeway <= now < token.exp + leeway
        && TokenLive(old(store.Contents()), now, token.claims.jti)
        && !IsRevoked(old(store.Contents()), now, token.claims.fam)
        && token.claims.sub in active && active[token.claims.sub]
      ensures !Accepted(token, now, leeway) ==> r == None && store.Contents() == old(store.Contents())
      ensures Accepted(token, now, leeway) ==>
                var (st, ok) := Rotate(old(store.Contents()), store.ttl, now, token.claims, next,
                    IsActive(token.claims.sub));
                && store.Contents() == st
                && r == if ok then Some(Jwt(RefreshKind, Claims(next, token.claims.fam, token.claims.sub), now,
                    now + store.ttl))
                        else None
    {
      if !Accepted(token, now, leeway) {
        return None;
      }
      var family := token.claims.fam;
      var record := store.Consume(now, token.claims.jti);
      if record == None {
        store.RevokeFamily(now, family);
        return None;
      }
      var gone := store.IsFamilyRevoked(now, family);
      if gone {
        return None;
      }
      if !IsActive(token.claims.sub) {
        store.RevokeFamily(now, family);
        return None;
      }
      var successor := IssueFor(now, token.claims.sub, family, next);
      r := Some(successor);
    }

    method Logout(now: Time, token: Jwt) returns (ok: bool)
      modifies store
      ensures ok <==> token.kind.RefreshKind? && token.iat - leeway <= now < token.exp + leeway
      ensures store.Contents() ==
              if ok then RevokeFamily(old(store.Contents()), store.ttl, now, token.claims.fam)
                  else old(store.Contents())
    {
      ok := Accepted(token, now, leeway);
      if ok {
        store.RevokeFamily(now, token.claims.fam);
      }
    }
  }
}

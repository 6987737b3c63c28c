// Sessions that pick an engine per statement, over one shared round-robin cursor.

module RoutingSpec {
  import opened Basics
  import opened SqlText
  import opened SqlReadable

  datatype Engine = Writer | Reader(i: nat)

  // What a session is asked to execute; `NoClause` is a bind without a statement.
  datatype Clause = Dml | SelectClause(forUpdate: bool) | TextSql(sql: string) | NoClause | Unknown

  datatype Router = Router(readers: nat, sticky: bool, cursor: nat)

  // The three keys of `Session.info`.
  datatype Info = Info(writerPinned: bool, readerPinned: Option<Engine>, readOnly: bool)

  const FRESH := Info(false, None, false)

  predicate ValidRouter(r: Router) { if r.readers == 0 then r.cursor == 0 else r.cursor < r.readers }

  function NextReader(r: Router): (Router, Engine)
    requires ValidRouter(r)
  {
    if r.readers == 0 then (r, Writer)
    else (r.(cursor := if r.cursor + 1 == r.readers then 0 else r.cursor + 1), Reader(r.cursor))
  }

  predicate IsWrite(clause: Clause, flushing: bool) {
    flushing || clause.Dml? || (clause.SelectClause? && clause.forUpdate)
  }

  predicate StatementReadable(cs: Charset, clause: Clause) {
    match clause
    case Dml => false
    case SelectClause(forUpdate) => !forUpdate
    case TextSql(sql) => Readable(cs, sql)
    case NoClause => false
    case Unknown => false
  }

  // `get_bind`; no engine means ReadOnlyRoutingError.
  function GetBind(r: Router, s: Info, clause: Clause, flushing: bool): (Router, Info, Option<Engine>)
    requires ValidRouter(r)
  {
    if IsWrite(clause, flushing) then
      if s.readOnly then (r, s, None)
      else (r, if r.sticky then s.(writerPinned := true) else s, Some(Writer))
    else if s.writerPinned then (r, s, Some(Writer))
    else if s.readerPinned.Some? then (r, s, s.readerPinned)
    else
      var (r', e) := NextReader(r);
      (r', s.(readerPinned := Some(e)), Some(e))
  }

  // How the engine answers: fine, with a connection error, or with another database error.
  datatype Answer = Fine | Lost | Failed

  datatype Outcome = Done | Refused | DatabaseError

  // One pass through the session: the read-only check on the statement, then the bind.
  function Attempt(cs: Charset, r: Router, s: Info, clause: Clause): (Router, Info, Option<Engine>)
    requires ValidRouter(r)
  {
    if s.readOnly && !StatementReadable(cs, clause) then (r, s, None) else GetBind(r, s, clause, false)
  }

  // A lost replica under a read-only session: the statement is run once more.
  predicate Retries(s: Info, answer: Answer) {
    s.readOnly && s.readerPinned.Some? && !s.writerPinned && answer == Lost
  }
}

module RoutingRuns {
  import opened Basics
  import opened SqlText
  import opened SqlReadable
  import opened RoutingSpec

  type Sid = nat

  // A bind that was granted: the engine, whether it was a recognised write, whether the session
  // was read-only or pinned to the writer before it, and the statement if it came through `execute`.
  datatype Bind = Bind(engine: Engine, write: bool, readOnly: bool, pinned: bool, clause: Option<Clause>)

  datatype Session = Session(info: Info, log: seq<Bind>, retries: nat)

  // `picked` lists the sessions that took a replica from the cursor, in order.
  datatype System = System(router: Router, sessions: map<Sid, Session>, picked: seq<Sid>, rounds: nat)

  datatype Action =
    | OpenSession(sid: Sid)
    | UseWriter(sid: Sid)
    | MarkReadOnly(sid: Sid)
    | Flush(sid: Sid)
    | Connect(sid: Sid)          // a bind without a statement
    | Execute(sid: Sid, clause: Clause, first: Answer, second: Answer)

  predicate Enabled(s: System, a: Action) {
    ValidRouter(s.router) && if a.OpenSession? then a.sid !in s.sessions else a.sid in s.sessions
  }

  // Carries out a bind for a session and writes it down.
  function Apply(s: System, sid: Sid, bind: (Router, Info, Option<Engine>), write: bool, clause: Option<Clause>): System
    requires sid in s.sessions
  {
    var u := s.sessions[sid];
    var (r, info, e) := bind;
    var picks := u.info.readerPinned.None? && info.readerPinned.Some? && info.readerPinned.value.Reader?;
    System(r,
           s.sessions[sid := Session(info,
                                     if e.None? then u.log
                                     else u.log + [Bind(e.value, write, u.info.readOnly, u.info.writerPinned, clause)],
                                     u.retries)],
           if picks then s.picked + [sid] else s.picked,
           if picks && r.cursor == 0 then s.rounds + 1 else s.rounds)
  }

  function Executed(cs: Charset, s: System, sid: Sid, clause: Clause): (t: System)
    requires sid in s.sessions && ValidRouter(s.router)
    ensures ValidRouter(t.router) && t.sessions.Keys == s.sessions.Keys
  {
    Apply(s, sid, Attempt(cs, s.router, s.sessions[sid].info, clause), IsWrite(clause, false), Some(clause))
  }

  function Next(cs: Charset, s: System, a: Action): System
    requires Enabled(s, a)
  {
    match a
    case OpenSession(sid) => s.(sessions := s.sessions[sid := Session(FRESH, [], 0)])
    case UseWriter(sid) =>
      var u := s.sessions[sid];
      s.(sessions := s.sessions[sid := u.(info := u.info.(writerPinned := true))])
    case MarkReadOnly(sid) =>
      var u := s.sessions[sid];
      s.(sessions := s.sessions[sid := u.(info := u.info.(readOnly := true))])
    case Flush(sid) =>
      var info := s.sessions[sid].info;
      if info.readOnly then s
      else Apply(s, sid, GetBind(s.router, info, NoClause, true), true, None)
    case Connect(sid) => Apply(s, sid, GetBind(s.router, s.sessions[sid].info, NoClause, false), false, None)
    case Execute(sid, clause, first, second) =>
      var t := Executed(cs, s, sid, clause);
      var bound := Attempt(cs, s.router, s.sessions[sid].info, clause).2.Some?;
      if bound && first != Fine && Retries(t.sessions[sid].info, first) then Retried(cs, t, sid, clause) else t
  }

  // Roll back, pin the session to the writer, run the statement again.
  function Retried(cs: Charset, t: System, sid: Sid, clause: Clause): System
    requires sid in t.sessions && ValidRouter(t.router)
  {
    Executed(cs, PinnedForRetry(t, sid), sid, clause)
  }

  function PinnedForRetry(t: System, sid: Sid): System
    requires sid in t.sessions
  {
    var u := t.sessions[sid];
    t.(sessions := t.sessions[sid := Session(u.info.(writerPinned := true), u.log, u.retries + 1)])
  }

  predicate Runs(cs: Charset, s: System, acts: seq<Action>)
    decreases |acts|
  {
    acts == [] || (Enabled(s, acts[0]) && Runs(cs, Next(cs, s, acts[0]), acts[1..]))
  }

  function After(cs: Charset, s: System, acts: seq<Action>): System
    requires Runs(cs, s, acts)
    decreases |acts|
  {
    if acts == [] then s else After(cs, Next(cs, s, acts[0]), acts[1..])
  }

  function Initial(readers: nat, sticky: bool): System {
    System(Router(readers, sticky, 0), map[], [], 0)
  }

  // ---------------------------------------------------------------------------------------
  // One session
  // ---------------------------------------------------------------------------------------

  // A write goes to the writer; under sticky mode so does every later bind.
  predicate StickyLog(sticky: bool, log: seq<Bind>) {
    && (forall i :: 0 <= i < |log| && log[i].write ==> log[i].engine == Writer)
    && (sticky ==> forall i, j :: 0 <= i < j < |log| && log[i].write ==> log[j].engine == Writer)
  }

  predicate OneReader(log: seq<Bind>) {
    forall i, j :: 0 <= i < |log| && 0 <= j < |log| && log[i].engine.Reader? && log[j].engine.Reader? ==>
      log[i].engine == log[j].engine
  }

  // While read-only: no recognised write, and no statement but readable ones. A bind without a
  // statement is not judged.
  predicate ReadOnlyLog(cs: Charset, log: seq<Bind>) {
    forall i :: 0 <= i < |log| && log[i].readOnly ==>
      !log[i].write && (log[i].clause.Some? ==> StatementReadable(cs, log[i].clause.value))
  }

  predicate SessionInv(cs: Charset, sticky: bool, u: Session) {
    && StickyLog(sticky, u.log) && OneReader(u.log) && ReadOnlyLog(cs, u.log)
    && (sticky && (exists i :: 0 <= i < |u.log| && u.log[i].write) ==> u.info.writerPinned)
    && (forall i :: 0 <= i < |u.log| && u.log[i].engine.Reader? ==> u.info.readerPinned == Some(u.log[i].engine))
    && u.retries <= 1
    && (u.retries == 1 ==> u.info.writerPinned)
  }

  // Pins are never taken back, and what a bind returns agrees with them.
  lemma BindKeepsSession(cs: Charset, s: System, sid: Sid, flushing: bool, clause: Clause, logged: Option<Clause>)
    requires sid in s.sessions && ValidRouter(s.router) && SessionInv(cs, s.router.sticky, s.sessions[sid])
    requires s.sessions[sid].info.readOnly ==>
               !IsWrite(clause, flushing) && (logged.Some? ==> StatementReadable(cs, logged.value))
    ensures
      var t := Apply(s, sid, GetBind(s.router, s.sessions[sid].info, clause, flushing), IsWrite(clause, flushing),
          logged);
      && SessionInv(cs, s.router.sticky, t.sessions[sid])
      && t.sessions[sid].retries == s.sessions[sid].retries
      && (s.sessions[sid].info.writerPinned ==> t.sessions[sid].info.writerPinned)
  {
  }

  lemma ExecutedKeepsSession(cs: Charset, s: System, sid: Sid, clause: Clause)
    requires sid in s.sessions && ValidRouter(s.router) && SessionInv(cs, s.router.sticky, s.sessions[sid])
    ensures
      var t := Executed(cs, s, sid, clause);
      && SessionInv(cs, s.router.sticky, t.sessions[sid])
      && t.sessions[sid].retries == s.sessions[sid].retries
      && (s.sessions[sid].info.writerPinned ==> t.sessions[sid].info.writerPinned)
      && t.router.sticky == s.router.sticky && t.router.readers == s.router.readers && ValidRouter(t.router)
  {
    if !(s.sessions[sid].info.readOnly && !StatementReadable(cs, clause)) {
      BindKeepsSession(cs, s, sid, false, clause, Some(clause));
    }
  }

  ghost predicate SessionsInv(cs: Charset, s: System) {
    ValidRouter(s.router) && forall sid :: sid in s.sessions ==> SessionInv(cs, s.router.sticky, s.sessions[sid])
  }

  lemma FlagKeepsSession(cs: Charset, s: System, a: Action)
    requires SessionsInv(cs, s) && Enabled(s, a) && (a.OpenSession? || a.UseWriter? || a.MarkReadOnly?)
    ensures SessionInv(cs, s.router.sticky, Next(cs, s, a).sessions[a.sid])
  {
  }

  lemma SessionsNext(cs: Charset, s: System, a: Action)
    requires SessionsInv(cs, s) && Enabled(s, a)
    ensures SessionsInv(cs, Next(cs, s, a))
    ensures Next(cs, s, a).router.sticky == s.router.sticky && Next(cs, s, a).router.readers == s.router.readers
  {
    hide SessionInv, StatementReadable, Attempt;
    match a
    case OpenSession(sid) => FlagKeepsSession(cs, s, a);
    case UseWriter(sid) => FlagKeepsSession(cs, s, a);
    case MarkReadOnly(sid) => FlagKeepsSession(cs, s, a);
    case Flush(sid) =>
      if !s.sessions[sid].info.readOnly {
        BindKeepsSession(cs, s, sid, true, NoClause, None);
      }
    case Connect(sid) => BindKeepsSession(cs, s, sid, false, NoClause, None);
    case Execute(sid, clause, first, second) =>
      ExecutedKeepsSession(cs, s, sid, clause);
      var t := Executed(cs, s, sid, clause);
      if Retries(t.sessions[sid].info, first) {
        RetriedKeepsSession(cs, t, sid, clause);
      }
  }

  lemma RetriedKeepsSession(cs: Charset, t: System, sid: Sid, clause: Clause)
    requires sid in t.sessions && ValidRouter(t.router) && SessionInv(cs, t.router.sticky, t.sessions[sid])
    requires !t.sessions[sid].info.writerPinned
    ensures SessionInv(cs, t.router.sticky, Retried(cs, t, sid, clause).sessions[sid])
    ensures Retried(cs, t, sid, clause).router.sticky == t.router.sticky
    ensures Retried(cs, t, sid, clause).router.readers == t.router.readers
  {
    ExecutedKeepsSession(cs, PinnedForRetry(t, sid), sid, clause);
  }

  lemma {:induction false} SessionsAfter(cs: Charset, s: System, acts: seq<Action>)
    requires SessionsInv(cs, s) && Runs(cs, s, acts)
    ensures SessionsInv(cs, After(cs, s, acts)) && After(cs, s, acts).router.sticky == s.router.sticky
    ensures After(cs, s, acts).router.readers == s.router.readers
    decreases |acts|
  {
    if acts != [] {
      SessionsNext(cs, s, acts[0]);
      SessionsAfter(cs, Next(cs, s, acts[0]), acts[1..]);
    }
  }

  // Over any run, of every session.
  lemma RoutingIsSafe(cs: Charset, readers: nat, sticky: bool, acts: seq<Action>, sid: Sid)
    requires Runs(cs, Initial(readers, sticky), acts) && sid in After(cs, Initial(readers, sticky), acts).sessions
    ensures
      var u := After(cs, Initial(readers, sticky), acts).sessions[sid];
      StickyLog(sticky, u.log) && OneReader(u.log) && ReadOnlyLog(cs, u.log) && u.retries <= 1
  {
    SessionsAfter(cs, Initial(readers, sticky), acts);
  }

  // ---------------------------------------------------------------------------------------
  // What a statement leads to
  // ---------------------------------------------------------------------------------------

  // The log says write of data changes, locking selects and flushes, and of nothing else.
  predicate ClauseLog(log: seq<Bind>) {
    forall i :: 0 <= i < |log| ==>
      && (log[i].clause == Some(Dml) || log[i].clause == Some(SelectClause(true)) ==> log[i].write)
      && (log[i].clause.Some? && log[i].write ==> log[i].clause.value.Dml? || log[i].clause == Some(SelectClause(true)))
  }

  lemma ClauseLogNext(cs: Charset, s: System, a: Action)
    requires Enabled(s, a) && forall sid :: sid in s.sessions ==> ClauseLog(s.sessions[sid].log)
    ensures forall sid :: sid in Next(cs, s, a).sessions ==> ClauseLog(Next(cs, s, a).sessions[sid].log)
  {
    if a.Execute? {
      var t := Executed(cs, s, a.sid, a.clause);
      ExecutedKeepsClauses(cs, s, a.sid, a.clause);
      ExecutedKeepsClauses(cs, PinnedForRetry(t, a.sid), a.sid, a.clause);
    }
  }

  lemma ExecutedKeepsClauses(cs: Charset, s: System, sid: Sid, clause: Clause)
    requires sid in s.sessions && ValidRouter(s.router) && forall q :: q in s.sessions ==> ClauseLog(s.sessions[q].log)
    ensures
      var t := Executed(cs, s, sid, clause);
      forall q :: q in t.sessions ==> ClauseLog(t.sessions[q].log)
  {
  }

  lemma {:induction false} ClauseLogAfter(cs: Charset, s: System, acts: seq<Action>)
    requires Runs(cs, s, acts) && forall sid :: sid in s.sessions ==> ClauseLog(s.sessions[sid].log)
    ensures forall sid :: sid in After(cs, s, acts).sessions ==> ClauseLog(After(cs, s, acts).sessions[sid].log)
    decreases |acts|
  {
    if acts != [] {
      ClauseLogNext(cs, s, acts[0]);
      ClauseLogAfter(cs, Next(cs, s, acts[0]), acts[1..]);
    }
  }

  // Over any run: a data change or a locking select is bound to the writer, and by no session that is
  // read-only; a plain select is no write.
  lemma WritesGoToTheWriter(cs: Charset, readers: nat, sticky: bool, acts: seq<Action>, sid: Sid, i: nat)
    requires Runs(cs, Initial(readers, sticky), acts) && sid in After(cs, Initial(readers, sticky), acts).sessions
    requires i < |After(cs, Initial(readers, sticky), acts).sessions[sid].log|
    ensures
      var b := After(cs, Initial(readers, sticky), acts).sessions[sid].log[i];
      && (b.clause == Some(Dml) || b.clause == Some(SelectClause(true)) ==> b.engine == Writer && !b.readOnly)
      && (b.clause == Some(SelectClause(false)) ==> !b.write)
  {
    SessionsAfter(cs, Initial(readers, sticky), acts);
    ClauseLogAfter(cs, Initial(readers, sticky), acts);
    var u := After(cs, Initial(readers, sticky), acts).sessions[sid];
    assert StickyLog(sticky, u.log) && ReadOnlyLog(cs, u.log) && ClauseLog(u.log);
  }

  // A retry happens exactly when a readable statement of a read-only session that is not pinned to the
  // writer meets a lost connection: it pins the session and asks the writer.
  lemma RetriesExactlyWhenLost(cs: Charset, s: System, a: Action, sid: Sid)
    requires SessionsInv(cs, s) && Enabled(s, a) && sid in s.sessions
    ensures
      var u, v := s.sessions[sid], Next(cs, s, a).sessions[sid];
      if a.Execute? && a.sid == sid && u.info.readOnly && !u.info.writerPinned
         && StatementReadable(cs, a.clause) && a.first == Lost
      then
        && v.retries == u.retries + 1 && v.info.writerPinned && v.info.readOnly
        && |v.log| == |u.log| + 2 && v.log[|u.log| + 1].engine == Writer
        && v.log[|u.log|].clause == v.log[|u.log| + 1].clause == Some(a.clause)
      else v.retries == u.retries && |v.log| <= |u.log| + 1
  {
  }

  // ---------------------------------------------------------------------------------------
  // The cursor
  // ---------------------------------------------------------------------------------------

  // How many of the first k sessions that picked are on replica i.
  function Load(s: System, i: nat, k: nat): nat
    requires k <= |s.picked|
  {
    if k == 0 then 0
    else
      var sid := s.picked[k - 1];
      Load(s, i, k - 1) + (if sid in s.sessions && s.sessions[sid].info.readerPinned == Some(Reader(i)) then 1 else 0)
  }

  // Each session picks at most once and keeps its replica; replicas before the cursor have had
  // one round more than the others.
  ghost predicate FairInv(s: System) {
    && ValidRouter(s.router)
    && (forall j, k :: 0 <= j < k < |s.picked| ==> s.picked[j] != s.picked[k])
    && (forall sid :: sid in s.picked <==>
          sid in s.sessions && s.sessions[sid].info.readerPinned.Some?
              && s.sessions[sid].info.readerPinned.value.Reader?)
    && (forall i :: 0 <= i < s.router.readers ==>
          Load(s, i, |s.picked|) == s.rounds + (if i < s.router.cursor then 1 else 0))
  }

  lemma {:induction false} LoadSame(s: System, t: System, i: nat, k: nat)
    requires k <= |s.picked| && s.picked <= t.picked
    requires forall j :: 0 <= j < k ==> s.picked[j] in s.sessions && s.picked[j] in t.sessions
                                        && s.sessions[s.picked[j]].info.readerPinned ==
                                            t.sessions[s.picked[j]].info.readerPinned
    ensures Load(s, i, k) == Load(t, i, k)
  {
    if k > 0 {
      LoadSame(s, t, i, k - 1);
      assert s.picked[k - 1] == t.picked[k - 1];
    }
  }

  // A step that pins no replica keeps the loads.
  lemma FairUnlessPicked(s: System, t: System)
    requires FairInv(s) && t.router == s.router && t.picked == s.picked && t.rounds == s.rounds
    requires s.sessions.Keys <= t.sessions.Keys
    requires forall sid :: sid in s.sessions ==> t.sessions[sid].info.readerPinned == s.sessions[sid].info.readerPinned
    requires forall sid :: sid in t.sessions && sid !in s.sessions ==> t.sessions[sid].info.readerPinned == None
    ensures FairInv(t)
  {
    forall i | 0 <= i < s.router.readers ensures Load(t, i, |t.picked|) == Load(s, i, |s.picked|) {
      LoadSame(s, t, i, |s.picked|);
    }
  }

  lemma FairAfterPick(s: System, t: System, sid: Sid)
    requires FairInv(s) && s.router.readers > 0
    requires sid in s.sessions && s.sessions[sid].info.readerPinned == None
    requires t.router == NextReader(s.router).0 && t.picked == s.picked + [sid]
    requires t.rounds == if t.router.cursor == 0 then s.rounds + 1 else s.rounds
    requires t.sessions.Keys == s.sessions.Keys
    requires t.sessions[sid].info.readerPinned == Some(NextReader(s.router).1)
    requires forall q :: q in s.sessions && q != sid ==> t.sessions[q] == s.sessions[q]
    ensures FairInv(t)
  {
    assert sid !in s.picked;
    assert forall q :: q in t.picked <==> q in s.picked || q == sid;
    forall i | 0 <= i < s.router.readers
      ensures Load(t, i, |t.picked|) == t.rounds + (if i < t.router.cursor then 1 else 0)
    {
      LoadSame(s, t, i, |s.picked|);
      assert t.picked[|t.picked| - 1] == sid;
    }
  }

  lemma BindKeepsFair(s: System, sid: Sid, flushing: bool, clause: Clause, write: bool, logged: Option<Clause>)
    requires FairInv(s) && sid in s.sessions
    ensures FairInv(Apply(s, sid, GetBind(s.router, s.sessions[sid].info, clause, flushing), write, logged))
  {
    var t := Apply(s, sid, GetBind(s.router, s.sessions[sid].info, clause, flushing), write, logged);
    if t.picked != s.picked {
      FairAfterPick(s, t, sid);
    } else if s.sessions[sid].info.readerPinned == None && t.sessions[sid].info.readerPinned != None {
      WriterStandsIn(s, t, sid);
    } else {
      FairUnlessPicked(s, t);
    }
  }

  // Without replicas the writer is pinned in their place.
  lemma WriterStandsIn(s: System, t: System, sid: Sid)
    requires FairInv(s) && t.router == s.router && t.picked == s.picked && t.rounds == s.rounds && s.router.readers == 0
    requires sid in s.sessions && s.sessions[sid].info.readerPinned == None
    requires t.sessions.Keys == s.sessions.Keys && t.sessions[sid].info.readerPinned == Some(Writer)
    requires forall q :: q in s.sessions && q != sid ==> t.sessions[q] == s.sessions[q]
    ensures FairInv(t)
  {
  }

  lemma FairNext(cs: Charset, s: System, a: Action)
    requires FairInv(s) && Enabled(s, a)
    ensures FairInv(Next(cs, s, a))
  {
    match a
    case OpenSession(sid) => FairUnlessPicked(s, Next(cs, s, a));
    case UseWriter(sid) => FairUnlessPicked(s, Next(cs, s, a));
    case MarkReadOnly(sid) => FairUnlessPicked(s, Next(cs, s, a));
    case Flush(sid) => BindKeepsFair(s, sid, true, NoClause, true, None);
    case Connect(sid) => BindKeepsFair(s, sid, false, NoClause, false, None);
    case Execute(sid, clause, first, second) =>
      ExecutedKeepsFair(cs, s, sid, clause);
      RetriedKeepsFair(cs, Executed(cs, s, sid, clause), sid, clause);
  }

  lemma RetriedKeepsFair(cs: Charset, t: System, sid: Sid, clause: Clause)
    requires FairInv(t) && sid in t.sessions
    ensures FairInv(Retried(cs, t, sid, clause))
  {
    FairUnlessPicked(t, PinnedForRetry(t, sid));
    ExecutedKeepsFair(cs, PinnedForRetry(t, sid), sid, clause);
  }

  lemma ExecutedKeepsFair(cs: Charset, s: System, sid: Sid, clause: Clause)
    requires FairInv(s) && sid in s.sessions
    ensures FairInv(Executed(cs, s, sid, clause))
  {
    if s.sessions[sid].info.readOnly && !StatementReadable(cs, clause) {
      FairUnlessPicked(s, Executed(cs, s, sid, clause));
    } else {
      BindKeepsFair(s, sid, false, clause, IsWrite(clause, false), Some(clause));
    }
  }

  lemma {:induction false} FairAfter(cs: Charset, s: System, acts: seq<Action>)
    requires FairInv(s) && Runs(cs, s, acts)
    ensures FairInv(After(cs, s, acts))
    decreases |acts|
  {
    if acts != [] {
      FairNext(cs, s, acts[0]);
      FairAfter(cs, Next(cs, s, acts[0]), acts[1..]);
    }
  }

  // However sessions interleave, the numbers of sessions on any two replicas differ by at most
  // one.
  lemma RoundRobinIsFair(cs: Charset, readers: nat, sticky: bool, acts: seq<Action>, i: nat, j: nat)
    requires Runs(cs, Initial(readers, sticky), acts) && i < readers && j < readers
    ensures
      var s := After(cs, Initial(readers, sticky), acts);
      -1 <= Load(s, i, |s.picked|) - Load(s, j, |s.picked|) <= 1
  {
    FairAfter(cs, Initial(readers, sticky), acts);
    ReadersStay(cs, Initial(readers, sticky), acts);
  }

  lemma ReadersStay(cs: Charset, s: System, acts: seq<Action>)
    requires SessionsInv(cs, s) && Runs(cs, s, acts)
    ensures After(cs, s, acts).router.readers == s.router.readers
  {
    SessionsAfter(cs, s, acts);
  }

  // ---------------------------------------------------------------------------------------
  // Reads reach the replicas, one after the other
  // ---------------------------------------------------------------------------------------

  // A bind goes to a replica exactly if it is no write, the session was not pinned to the writer,
  // and there are replicas.
  predicate ReplicaLog(readers: nat, u: Session) {
    && (u.info.readerPinned.Some? ==> (u.info.readerPinned.value.Reader? <==> readers > 0))
    && (forall i :: 0 <= i < |u.log| ==>
          (u.log[i].engine.Reader? <==> !u.log[i].write && !u.log[i].pinned && readers > 0))
  }

  // Replicas in turn: the first, the next one, and after the last the first again.
  function Turn(readers: nat, k: nat): nat {
    if k == 0 || Turn(readers, k - 1) + 1 == readers then 0 else Turn(readers, k - 1) + 1
  }

  // The session that was the k-th to take a replica has the k-th in turn.
  predicate InTurn(s: System, k: nat)
    requires k < |s.picked|
  {
    s.router.readers > 0 && s.picked[k] in s.sessions
    && s.sessions[s.picked[k]].info.readerPinned == Some(Reader(Turn(s.router.readers, k)))
  }

  ghost predicate TurnInv(s: System) {
    && ValidRouter(s.router)
    && (s.router.readers > 0 ==> s.router.cursor == Turn(s.router.readers, |s.picked|))
    && (forall sid :: sid in s.sessions ==> ReplicaLog(s.router.readers, s.sessions[sid]))
    && (forall k :: 0 <= k < |s.picked| ==> InTurn(s, k))
  }

  lemma BindKeepsTurn(s: System, sid: Sid, flushing: bool, clause: Clause, logged: Option<Clause>)
    requires TurnInv(s) && sid in s.sessions
    ensures
      var t := Apply(s, sid, GetBind(s.router, s.sessions[sid].info, clause, flushing), IsWrite(clause, flushing),
          logged);
      TurnInv(t) && t.router.readers == s.router.readers
  {
    var t := Apply(s, sid, GetBind(s.router, s.sessions[sid].info, clause, flushing), IsWrite(clause, flushing),
        logged);
    assert ReplicaLog(s.router.readers, s.sessions[sid]);
    forall k | 0 <= k < |t.picked| ensures InTurn(t, k) {
      if k < |s.picked| {
        assert InTurn(s, k);
      }
    }
  }

  lemma ExecutedKeepsTurn(cs: Charset, s: System, sid: Sid, clause: Clause)
    requires TurnInv(s) && sid in s.sessions
    ensures TurnInv(Executed(cs, s, sid, clause)) && Executed(cs, s, sid, clause).router.readers == s.router.readers
  {
    if s.sessions[sid].info.readOnly && !StatementReadable(cs, clause) {
      SameTurn(s, Executed(cs, s, sid, clause));
    } else {
      BindKeepsTurn(s, sid, false, clause, Some(clause));
    }
  }

  // A step that leaves logs and replicas alone.
  lemma SameTurn(s: System, t: System)
    requires TurnInv(s) && t.router == s.router && t.picked == s.picked && s.sessions.Keys <= t.sessions.Keys
    requires forall sid :: sid in s.sessions ==>
               t.sessions[sid].log == s.sessions[sid].log
                   && t.sessions[sid].info.readerPinned == s.sessions[sid].info.readerPinned
    requires forall sid :: sid in t.sessions && sid !in s.sessions ==> t.sessions[sid] == Session(FRESH, [], 0)
    ensures TurnInv(t)
  {
    forall sid | sid in t.sessions ensures ReplicaLog(t.router.readers, t.sessions[sid]) {
      if sid in s.sessions {
        assert ReplicaLog(s.router.readers, s.sessions[sid]);
      }
    }
    forall k | 0 <= k < |t.picked| ensures InTurn(t, k) {
      assert InTurn(s, k);
    }
  }

  lemma TurnNext(cs: Charset, s: System, a: Action)
    requires TurnInv(s) && Enabled(s, a)
    ensures TurnInv(Next(cs, s, a)) && Next(cs, s, a).router.readers == s.router.readers
  {
    match a
    case OpenSession(sid) => SameTurn(s, Next(cs, s, a));
    case UseWriter(sid) => SameTurn(s, Next(cs, s, a));
    case MarkReadOnly(sid) => SameTurn(s, Next(cs, s, a));
    case Flush(sid) => BindKeepsTurn(s, sid, true, NoClause, None);
    case Connect(sid) => BindKeepsTurn(s, sid, false, NoClause, None);
    case Execute(sid, clause, first, second) =>
      ExecutedKeepsTurn(cs, s, sid, clause);
      var t := Executed(cs, s, sid, clause);
      SameTurn(t, PinnedForRetry(t, sid));
      ExecutedKeepsTurn(cs, PinnedForRetry(t, sid), sid, clause);
  }

  lemma {:induction false} TurnAfter(cs: Charset, s: System, acts: seq<Action>)
    requires TurnInv(s) && Runs(cs, s, acts)
    ensures TurnInv(After(cs, s, acts)) && After(cs, s, acts).router.readers == s.router.readers
    decreases |acts|
  {
    if acts != [] {
      TurnNext(cs, s, acts[0]);
      TurnAfter(cs, Next(cs, s, acts[0]), acts[1..]);
    }
  }

  // Over any run: every unpinned bind that is no write goes to a replica if there are any, and
  // nothing else does; and the sessions take the replicas in turn.
  lemma ReadsReachReplicas(cs: Charset, readers: nat, sticky: bool, acts: seq<Action>)
    requires Runs(cs, Initial(readers, sticky), acts)
    ensures
      var s := After(cs, Initial(readers, sticky), acts);
      && (forall sid, i :: sid in s.sessions && 0 <= i < |s.sessions[sid].log| ==>
            (s.sessions[sid].log[i].engine.Reader? <==>
             !s.sessions[sid].log[i].write && !s.sessions[sid].log[i].pinned && readers > 0))
      && s.router.readers == readers
      && (forall k :: 0 <= k < |s.picked| ==> InTurn(s, k))
  {
    TurnAfter(cs, Initial(readers, sticky), acts);
    var s := After(cs, Initial(readers, sticky), acts);
    forall sid | sid in s.sessions ensures ReplicaLog(readers, s.sessions[sid]) {
    }
  }
}

module RoutingClasses {
  import opened Basics
  import opened SqlText
  import opened SqlReadable
  import opened RoutingSpec

  class DatabaseRouter {
    const readers: nat
    const sticky: bool
    var cursor: nat

    constructor (readers: nat, sticky: bool)
      ensures this.readers == readers && this.sticky == sticky && Value() == Router(readers, sticky, 0)
    {
      this.readers, this.sticky, cursor := readers, sticky, 0;
    }

    function Value(): Router
      reads this
    {
      Router(readers, sticky, cursor)
    }

    method TakeReader() returns (e: Engine)
      requires ValidRouter(Value())
      modifies this
      ensures (Value(), e) == NextReader(old(Value()))
    {
      if readers == 0 {
        return Writer;
      }
      e := Reader(cursor);
      cursor := cursor + 1;
      if cursor == readers {
        cursor := 0;
      }
    }
  }

  class RoutingSession {
    const router: DatabaseRouter
    var writerPinned: bool
    var readerPinned: Option<Engine>
    var readOnly: bool

    constructor (router: DatabaseRouter)
      ensures this.router == router && Value() == FRESH
    {
      this.router := router;
      writerPinned, readerPinned, readOnly := false, None, false;
    }

    function Value(): Info
      reads this
    {
      Info(writerPinned, readerPinned, readOnly)
    }

    method Bind(clause: Clause, flushing: bool) returns (e: Option<Engine>)
      requires ValidRouter(router.Value())
      modifies this, router
      ensures (router.Value(), Value(), e) == GetBind(old(router.Value()), old(Value()), clause, flushing)
      ensures
        var write := flushing || clause.Dml? || clause == SelectClause(true);
        && (e == None <==> write && old(readOnly))
        && (write || old(writerPinned) ==> e == None || e == Some(Writer))
        && (writerPinned <==> old(writerPinned) || (write && e != None && router.sticky))
        && readOnly == old(readOnly)
    {
      if IsWrite(clause, flushing) {
        if readOnly {
          return None;
        }
        if router.sticky {
          writerPinned := true;
        }
        return Some(Writer);
      }
      if writerPinned {
        return Some(Writer);
      }
      if readerPinned == None {
        var reader := router.TakeReader();
        readerPinned := Some(reader);
      }
      e := readerPinned;
    }

    method TryOnce(cs: Charset, clause: Clause) returns (e: Option<Engine>)
      requires ValidRouter(router.Value())
      modifies this, router
      ensures (router.Value(), Value(), e) == Attempt(cs, old(router.Value()), old(Value()), clause)
    {
      if readOnly && !StatementReadable(cs, clause) {
        return None;
      }
      e := Bind(clause, false);
    }

    // `_execute_internal`: at most two engines are asked. The second is the writer, and it is asked
    // only after the session's pinned reader could not be reached by a read-only session; without
    // replicas that reader is the writer itself.
    method ExecuteStatement(cs: Charset, clause: Clause, first: Answer, second: Answer)
      returns (asked: seq<Engine>, outcome: Outcome)
      requires ValidRouter(router.Value())
      modifies this, router
      ensures old(readOnly) && !old(writerPinned) && StatementReadable(cs, clause) && first == Lost ==>
        |asked| == 2 && asked[1] == Writer && writerPinned && (outcome == Done <==> second == Fine)
      ensures first == Failed || first == Fine || !old(readOnly) || old(writerPinned) ==> |asked| <= 1
      ensures asked == [] <==> old(readOnly) && !StatementReadable(cs, clause)
      ensures |asked| == 1 ==> (outcome == Done <==> first == Fine)
      ensures asked == [] <==> outcome == Refused
      ensures var (r1, s1, e1) := Attempt(cs, old(router.Value()), old(Value()), clause);
              if e1 == None then
                router.Value() == r1 && Value() == s1 && asked == [] && outcome == Refused
              else if !Retries(s1, first) then
                router.Value() == r1 && Value() == s1 && asked == [e1.value]
                && outcome == (if first == Fine then Done else DatabaseError)
              else
                && router.Value() == r1 && Value() == s1.(writerPinned := true)
                && asked == [e1.value, Writer]
                && outcome == (if second == Fine then Done else DatabaseError)
    {
      var e := TryOnce(cs, clause);
      if e == None {
        return [], Refused;
      }
      asked := [e.value];
      if first == Fine {
        return asked, Done;
      }
      if !(readOnly && readerPinned.Some? && !writerPinned && first == Lost) {
        return asked, DatabaseError;
      }
      writerPinned := true;
      e := TryOnce(cs, clause);
      asked := asked + [e.value];
      outcome := if second == Fine then Done else DatabaseError;
    }
  }
}

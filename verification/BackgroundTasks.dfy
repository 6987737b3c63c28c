// Fire-and-forget tasks with a cap, and their drain at shutdown, as steps between awaits.

module TaskRunnerProtocol {
  import opened Basics

  type Id = nat
  type DrainId = nat

  // Where a call of `drain` stands. Its snapshot is the tracked set at its start.
  datatype Phase =
    | Waiting(snapshot: set<Id>)                      // for the tasks, or the timeout
    | Cancelling(snapshot: set<Id>, late: set<Id>)    // for the late ones to end
    | Returned
    | Aborted                                         // the caller's own timeout stopped it

  datatype Runner = Runner(tasks: set<Id>, closed: bool, dropped: nat, rejected: nat)

  datatype System = System(
    runner: Runner,
    calls: nat,               // of `spawn`
    accepted: set<Id>,
    running: set<Id>,
    toCancel: set<Id>,        // asked to cancel
    finished: set<Id>,        // ended by themselves
    cancelled: set<Id>,
    drains: map<DrainId, Phase>)

  datatype Action =
    | Spawn(id: Id)
    | Finish(id: Id)
    | EndCancelled(id: Id)
    | Discard(id: Id)                   // the done callback
    | CloseAdmission
    | DrainStart(d: DrainId)
    | DrainWake(d: DrainId, timedOut: bool)
    | DrainEnd(d: DrainId)
    | DrainAbort(d: DrainId)

  const INITIAL := System(Runner({}, false, 0, 0), 0, {}, {}, {}, {}, {}, map[])

  predicate Active(s: System, d: DrainId) {
    d in s.drains && (s.drains[d].Waiting? || s.drains[d].Cancelling?)
  }

  predicate Enabled(s: System, a: Action) {
    match a
    case Spawn(id) => id !in s.accepted
    case Finish(id) => id in s.running
    case EndCancelled(id) => id in s.running && id in s.toCancel
    case Discard(id) => id in s.finished || id in s.cancelled
    case CloseAdmission => true
    case DrainStart(d) => d !in s.drains
    case DrainWake(d, timedOut) =>
      d in s.drains && s.drains[d].Waiting? && (timedOut || s.drains[d].snapshot !! s.running)
    case DrainEnd(d) => d in s.drains && s.drains[d].Cancelling? && s.drains[d].late !! s.running
    case DrainAbort(d) => Active(s, d)
  }

  predicate Accepts(max: int, r: Runner) {
    !r.closed && |r.tasks| < max
  }

  function SpawnOn(max: int, r: Runner, id: Id): Runner {
    if r.closed then r.(rejected := r.rejected + 1)
    else if |r.tasks| >= max then r.(dropped := r.dropped + 1)
    else r.(tasks := r.tasks + {id})
  }

  // The drain is over: consume the exceptions, forget the tasks.
  function Cleared(s: System, d: DrainId): System {
    s.(runner := s.runner.(tasks := {}), drains := s.drains[d := Returned])
  }

  function Next(max: int, s: System, a: Action): System
    requires Enabled(s, a)
  {
    match a
    case Spawn(id) =>
      var spawned := s.(runner := SpawnOn(max, s.runner, id), calls := s.calls + 1);
      if Accepts(max, s.runner)
      then spawned.(accepted := s.accepted + {id}, running := s.running + {id})
      else spawned
    case Finish(id) => s.(running := s.running - {id}, finished := s.finished + {id})
    case EndCancelled(id) => s.(running := s.running - {id}, cancelled := s.cancelled + {id})
    case Discard(id) => s.(runner := s.runner.(tasks := s.runner.tasks - {id}))
    case CloseAdmission => s.(runner := s.runner.(closed := true))
    case DrainStart(d) =>
      var closed := s.(runner := s.runner.(closed := true));
      closed.(drains := s.drains[d := if s.runner.tasks == {} then Returned else Waiting(s.runner.tasks)])
    case DrainWake(d, _) =>
      var late := s.drains[d].snapshot * s.running;
      if late == {} then Cleared(s, d)
      else s.(toCancel := s.toCancel + late, drains := s.drains[d := Cancelling(s.drains[d].snapshot, late)])
    case DrainEnd(d) => Cleared(s, d)
    case DrainAbort(d) => s.(drains := s.drains[d := Aborted])
  }

  predicate Runs(max: int, s: System, acts: seq<Action>)
    decreases |acts|
  {
    acts == [] || (Enabled(s, acts[0]) && Runs(max, Next(max, s, acts[0]), acts[1..]))
  }

  function After(max: int, s: System, acts: seq<Action>): System
    requires Runs(max, s, acts)
    decreases |acts|
  {
    if acts == [] then s else After(max, Next(max, s, acts[0]), acts[1..])
  }

  // ---------------------------------------------------------------------------------------
  // The invariant
  // ---------------------------------------------------------------------------------------

  // Every accepted task is running, finished or cancelled, and only one of these.
  predicate Accounted(s: System) {
    && s.accepted == s.running + s.finished + s.cancelled
    && s.running !! s.finished && s.running !! s.cancelled && s.finished !! s.cancelled
  }

  predicate Counted(s: System) {
    s.calls == |s.accepted| + s.runner.dropped + s.runner.rejected
  }

  predicate Capped(max: int, s: System) {
    |s.runner.tasks| <= if max < 0 then 0 else max
  }

  // Running tasks are tracked, so the cap is one on running tasks.
  predicate Tracked(s: System) {
    s.running <= s.runner.tasks <= s.accepted
  }

  ghost predicate DrainAgrees(s: System, d: DrainId)
    requires d in s.drains
  {
    match s.drains[d]
    case Waiting(snapshot) => s.runner.closed && s.running <= snapshot
    case Cancelling(snapshot, late) => s.runner.closed && s.running <= late && late <= s.toCancel
    case Returned => s.runner.closed && s.runner.tasks == {}
    case Aborted => s.runner.closed
  }

  ghost predicate DrainsAgree(s: System) {
    forall d :: d in s.drains ==> DrainAgrees(s, d)
  }

  ghost predicate Inv(max: int, s: System) {
    Accounted(s) && Counted(s) && Capped(max, s) && Tracked(s) && DrainsAgree(s)
  }

  lemma AccountedNext(max: int, s: System, a: Action)
    requires Accounted(s) && Enabled(s, a)
    ensures Accounted(Next(max, s, a))
  {
  }

  lemma CountedNext(max: int, s: System, a: Action)
    requires Counted(s) && Enabled(s, a)
    ensures Counted(Next(max, s, a))
  {
  }

  lemma CappedNext(max: int, s: System, a: Action)
    requires Capped(max, s) && Enabled(s, a)
    ensures Capped(max, Next(max, s, a))
  {
    if a.Discard? {
      SubsetSize(s.runner.tasks - {a.id}, s.runner.tasks);
    }
  }

  // A drain that ends has nothing running left: its snapshot held everything that ran.
  lemma TrackedNext(max: int, s: System, a: Action)
    requires Tracked(s) && Accounted(s) && DrainsAgree(s) && Enabled(s, a)
    ensures Tracked(Next(max, s, a))
  {
    match a
    case DrainWake(d, _) => assert DrainAgrees(s, d);
    case DrainEnd(d) => assert DrainAgrees(s, d);
    case _ =>
  }

  lemma DrainsAgreeNext(max: int, s: System, a: Action)
    requires Tracked(s) && DrainsAgree(s) && Enabled(s, a)
    ensures DrainsAgree(Next(max, s, a))
  {
    var t := Next(max, s, a);
    forall e | e in t.drains ensures DrainAgrees(t, e) {
      if e in s.drains {
        assert DrainAgrees(s, e);
      }
    }
  }

  lemma InvNext(max: int, s: System, a: Action)
    requires Inv(max, s) && Enabled(s, a)
    ensures Inv(max, Next(max, s, a))
  {
    AccountedNext(max, s, a);
    CountedNext(max, s, a);
    CappedNext(max, s, a);
    TrackedNext(max, s, a);
    DrainsAgreeNext(max, s, a);
  }

  lemma {:induction false} InvAfter(max: int, s: System, acts: seq<Action>)
    requires Inv(max, s) && Runs(max, s, acts)
    ensures Inv(max, After(max, s, acts))
    decreases |acts|
  {
    if acts != [] {
      InvNext(max, s, acts[0]);
      InvAfter(max, Next(max, s, acts[0]), acts[1..]);
    }
  }

  // In every interleaving of spawns, endings, callbacks and drains: no more tasks run than the
  // cap, every call of `spawn` is accepted, dropped or rejected, every accepted task is running,
  // finished or cancelled, and once a drain has returned none is running or tracked.
  lemma TasksAreConserved(max: int, acts: seq<Action>)
    requires Runs(max, INITIAL, acts)
    ensures
      var s := After(max, INITIAL, acts);
      && |s.running| <= |s.runner.tasks| <= (if max < 0 then 0 else max)
      && s.calls == |s.accepted| + s.runner.dropped + s.runner.rejected
      && |s.accepted| == |s.running| + |s.finished| + |s.cancelled|
      && (forall d :: d in s.drains && s.drains[d].Returned? ==>
            s.runner.tasks == {} && s.running == {} && s.accepted == s.finished + s.cancelled)
  {
    var s := After(max, INITIAL, acts);
    InvAfter(max, INITIAL, acts);
    SubsetSize(s.running, s.runner.tasks);
    assert |s.running + s.finished| == |s.running| + |s.finished|;
    assert |s.running + s.finished + s.cancelled| == |s.running + s.finished| + |s.cancelled|;
    forall d | d in s.drains && s.drains[d].Returned?
      ensures s.runner.tasks == {} && s.running == {} && s.accepted == s.finished + s.cancelled
    {
      assert DrainAgrees(s, d);
    }
  }

  // Nothing is accepted after admission closes, and it never opens again.
  lemma {:induction false} NothingAfterClose(max: int, s: System, acts: seq<Action>)
    requires s.runner.closed && Runs(max, s, acts)
    ensures After(max, s, acts).runner.closed && After(max, s, acts).accepted == s.accepted
    decreases |acts|
  {
    if acts != [] {
      NothingAfterClose(max, Next(max, s, acts[0]), acts[1..]);
    }
  }

  // A drain cancels only tasks that were still running when its wait timed out, and without a
  // timeout nothing is cancelled.
  lemma {:induction false} CancelledOnlyAfterTimeout(max: int, s: System, acts: seq<Action>)
    requires Runs(max, s, acts) && s.toCancel == {} && s.cancelled == {}
    requires forall i :: 0 <= i < |acts| ==> !(acts[i].DrainWake? && acts[i].timedOut)
    ensures After(max, s, acts).cancelled == {}
    decreases |acts|
  {
    if acts != [] {
      var a := acts[0];
      assert !(a.DrainWake? && a.timedOut);
      CancelledOnlyAfterTimeout(max, Next(max, s, a), acts[1..]);
    }
  }

  // ---------------------------------------------------------------------------------------
  // What a run of actions leaves tracked, and what a spawn then does
  // ---------------------------------------------------------------------------------------

  // Something in these actions closes admission.
  predicate Closes(acts: seq<Action>) {
    exists i :: 0 <= i < |acts| && (acts[i].CloseAdmission? || acts[i].DrainStart?)
  }

  // The tasks whose done callback is among these actions.
  function CalledBack(acts: seq<Action>): set<Id> {
    set i | 0 <= i < |acts| && acts[i].Discard? :: acts[i].id
  }

  function Spawns(acts: seq<Action>): nat {
    if acts == [] then 0 else (if acts[0].Spawn? then 1 else 0) + Spawns(acts[1..])
  }

  ghost predicate NoneReturned(s: System) {
    forall d :: d in s.drains ==> !s.drains[d].Returned?
  }

  // With the callbacks of `gone` run, the others are tracked until a drain returns.
  ghost predicate TracksAllBut(s: System, gone: set<Id>) {
    gone <= s.accepted && (NoneReturned(s) ==> s.runner.tasks == s.accepted - gone)
  }

  lemma ClosesFirst(acts: seq<Action>)
    requires acts != []
    ensures Closes(acts) <==> acts[0].CloseAdmission? || acts[0].DrainStart? || Closes(acts[1..])
  {
    if Closes(acts[1..]) {
      var i :| 0 <= i < |acts[1..]| && (acts[1..][i].CloseAdmission? || acts[1..][i].DrainStart?);
      assert acts[i + 1] == acts[1..][i];
    }
    if Closes(acts) && !acts[0].CloseAdmission? && !acts[0].DrainStart? {
      var i :| 0 <= i < |acts| && (acts[i].CloseAdmission? || acts[i].DrainStart?);
      assert acts[1..][i - 1] == acts[i];
    }
  }

  lemma CalledBackFirst(acts: seq<Action>)
    requires acts != []
    ensures CalledBack(acts) == (if acts[0].Discard? then {acts[0].id} else {}) + CalledBack(acts[1..])
  {
    forall id | id in CalledBack(acts[1..]) ensures id in CalledBack(acts) {
      var i :| 0 <= i < |acts[1..]| && acts[1..][i].Discard? && acts[1..][i].id == id;
      assert acts[i + 1] == acts[1..][i];
    }
    forall id | id in CalledBack(acts) && !(acts[0].Discard? && acts[0].id == id)
      ensures id in CalledBack(acts[1..])
    {
      var i :| 0 <= i < |acts| && acts[i].Discard? && acts[i].id == id;
      assert acts[1..][i - 1] == acts[i];
    }
  }

  lemma ReturnedStays(max: int, s: System, a: Action)
    requires Enabled(s, a)
    ensures NoneReturned(Next(max, s, a)) ==> NoneReturned(s)
  {
    var t := Next(max, s, a);
    forall d | d in s.drains && s.drains[d].Returned? ensures d in t.drains && t.drains[d].Returned? {
    }
  }

  lemma TracksNext(max: int, s: System, a: Action, gone: set<Id>)
    requires Accounted(s) && TracksAllBut(s, gone) && Enabled(s, a)
    ensures TracksAllBut(Next(max, s, a), if a.Discard? then gone + {a.id} else gone)
  {
    var t := Next(max, s, a);
    ReturnedStays(max, s, a);
    match a
    case DrainWake(d, _) => assert d in t.drains;
    case DrainEnd(d) => assert t.drains[d].Returned?;
    case _ =>
  }

  lemma InvAccounts(max: int, s: System)
    requires Inv(max, s)
    ensures Accounted(s)
  {
  }

  lemma DrainsClose(s: System)
    requires DrainsAgree(s)
    ensures forall d :: d in s.drains ==> s.runner.closed
  {
    forall d | d in s.drains ensures s.runner.closed {
      assert DrainAgrees(s, d);
    }
  }

  lemma {:induction false} TracksAfter(max: int, s: System, acts: seq<Action>, gone: set<Id>)
    requires Inv(max, s) && TracksAllBut(s, gone) && Runs(max, s, acts)
    ensures TracksAllBut(After(max, s, acts), gone + CalledBack(acts))
    decreases |acts|
  {
    hide Inv, TracksAllBut, Next;
    if acts == [] {
      assert gone + CalledBack(acts) == gone;
    } else {
      var next := if acts[0].Discard? then gone + {acts[0].id} else gone;
      InvAccounts(max, s);
      TracksNext(max, s, acts[0], gone);
      InvNext(max, s, acts[0]);
      TracksAfter(max, Next(max, s, acts[0]), acts[1..], next);
      CalledBackFirst(acts);
      assert next + CalledBack(acts[1..]) == gone + CalledBack(acts);
    }
  }

  lemma {:induction false} ClosedAfter(max: int, s: System, acts: seq<Action>)
    requires Runs(max, s, acts)
    ensures After(max, s, acts).runner.closed <==> s.runner.closed || Closes(acts)
    ensures After(max, s, acts).calls == s.calls + Spawns(acts)
    decreases |acts|
  {
    if acts != [] {
      ClosedAfter(max, Next(max, s, acts[0]), acts[1..]);
      ClosesFirst(acts);
    }
  }

  // Until a drain has returned, the tracked tasks are the accepted ones whose done callback has
  // not run: a task leaves the set by its callback, and by nothing else.
  lemma TrackedUntilCallback(max: int, acts: seq<Action>)
    requires Runs(max, INITIAL, acts)
    ensures
      var s := After(max, INITIAL, acts);
      && CalledBack(acts) <= s.accepted
      && ((forall d :: d in s.drains ==> !s.drains[d].Returned?) ==> s.runner.tasks == s.accepted - CalledBack(acts))
  {
    TracksAfter(max, INITIAL, acts, {});
    assert {} + CalledBack(acts) == CalledBack(acts);
  }

  // So whether a spawn is accepted is in the actions before it: nothing has closed admission,
  // and fewer than `max` accepted tasks still wait for their callback. One turned away before
  // the closing counts as dropped, one after it as rejected.
  lemma SpawnAcceptedIff(max: int, acts: seq<Action>, id: Id)
    requires Runs(max, INITIAL, acts) && id !in After(max, INITIAL, acts).accepted
    ensures
      var s := After(max, INITIAL, acts);
      var t := Next(max, s, Spawn(id));
      var free := |s.accepted - CalledBack(acts)| < max;
      && t.accepted == (if !Closes(acts) && free then s.accepted + {id} else s.accepted)
      && t.runner.dropped == s.runner.dropped + (if !Closes(acts) && !free then 1 else 0)
      && t.runner.rejected == s.runner.rejected + (if Closes(acts) then 1 else 0)
  {
    hide Runs, After, Closes, CalledBack;
    var s := After(max, INITIAL, acts);
    InvAfter(max, INITIAL, acts);
    ClosedAfter(max, INITIAL, acts);
    TrackedUntilCallback(max, acts);
    DrainsClose(s);
  }

  // Tasks that follow one another, each called back before the next, all find a slot.
  function OneByOne(n: nat): seq<Action> {
    if n == 0 then [] else OneByOne(n - 1) + [Spawn(n - 1), Finish(n - 1), Discard(n - 1)]
  }

  lemma OneTask(max: int, s: System, id: Id)
    requires 1 <= max && !s.runner.closed && s.runner.tasks == {} && s.running == {} && id !in s.accepted
    ensures
      var acts := [Spawn(id), Finish(id), Discard(id)];
      && Runs(max, s, acts)
      && After(max, s, acts).runner == s.runner && After(max, s, acts).running == {}
      && After(max, s, acts).accepted == s.accepted + {id}
  {
    var acts := [Spawn(id), Finish(id), Discard(id)];
    var t := Next(max, s, Spawn(id));
    var u := Next(max, t, Finish(id));
    assert Next(max, u, Discard(id)).runner == s.runner;
    OneStep(max, u, Discard(id), []);
    OneStep(max, t, Finish(id), [Discard(id)]);
    OneStep(max, s, Spawn(id), [Finish(id), Discard(id)]);
    assert [Discard(id)] + [] == [Discard(id)];
    assert [Finish(id)] + [Discard(id)] == [Finish(id), Discard(id)];
    assert [Spawn(id)] + [Finish(id), Discard(id)] == acts;
  }

  // However small the cap, it never fills up for good: any number of tasks can pass, one at a time.
  lemma {:induction false} SlotsComeBack(max: int, n: nat)
    requires 1 <= max
    ensures Runs(max, INITIAL, OneByOne(n))
    ensures
      var s := After(max, INITIAL, OneByOne(n));
      && s.runner == Runner({}, false, 0, 0) && s.running == {}
      && |s.accepted| == n && (forall id :: id in s.accepted ==> id < n)
  {
    if n > 0 {
      SlotsComeBack(max, n - 1);
      var s := After(max, INITIAL, OneByOne(n - 1));
      assert n - 1 !in s.accepted;
      OneTask(max, s, n - 1);
      var more := [Spawn(n - 1), Finish(n - 1), Discard(n - 1)];
      Join(max, INITIAL, OneByOne(n - 1), more);
      assert |s.accepted + {n - 1}| == n;
    }
  }

  // ---------------------------------------------------------------------------------------
  // A drain comes to its end
  // ---------------------------------------------------------------------------------------

  // One after the other, the tasks that were asked to cancel end.
  lemma {:induction false} EndAll(max: int, s: System) returns (acts: seq<Action>)
    requires s.running <= s.toCancel
    ensures Runs(max, s, acts) && forall i :: 0 <= i < |acts| ==> acts[i].EndCancelled?
    ensures After(max, s, acts) == s.(running := {}, cancelled := s.cancelled + s.running)
    decreases |s.running|
  {
    if s.running == {} {
      acts := [];
      assert s == s.(running := {}, cancelled := s.cancelled + s.running);
    } else {
      var id :| id in s.running;
      var t := Next(max, s, EndCancelled(id));
      SubsetSize(t.running, s.running);
      assert s.running == t.running + {id};
      var rest := EndAll(max, t);
      acts := [EndCancelled(id)] + rest;
      assert acts[1..] == rest;
      assert t.cancelled + t.running == s.cancelled + s.running;
    }
  }

  lemma {:induction false} Join(max: int, s: System, acts: seq<Action>, more: seq<Action>)
    requires Runs(max, s, acts) && Runs(max, After(max, s, acts), more)
    ensures Runs(max, s, acts + more) && After(max, s, acts + more) == After(max, After(max, s, acts), more)
    decreases |acts|
  {
    if acts == [] {
      assert acts + more == more;
    } else {
      Join(max, Next(max, s, acts[0]), acts[1..], more);
      assert (acts + more)[1..] == acts[1..] + more;
    }
  }

  lemma CancelAndEnd(max: int, s: System, d: DrainId) returns (acts: seq<Action>)
    requires Inv(max, s) && d in s.drains && s.drains[d].Cancelling?
    ensures Runs(max, s, acts) && After(max, s, acts).drains == s.drains[d := Returned]
    ensures After(max, s, acts).cancelled == s.cancelled + s.running && After(max, s, acts).finished == s.finished
  {
    assert DrainAgrees(s, d);
    var ends := EndAll(max, s);
    var t := After(max, s, ends);
    OneStep(max, t, DrainEnd(d), []);
    assert [DrainEnd(d)] + [] == [DrainEnd(d)];
    Join(max, s, ends, [DrainEnd(d)]);
    acts := ends + [DrainEnd(d)];
  }

  lemma OneStep(max: int, s: System, a: Action, rest: seq<Action>)
    requires Enabled(s, a) && Runs(max, Next(max, s, a), rest)
    ensures Runs(max, s, [a] + rest) && After(max, s, [a] + rest) == After(max, Next(max, s, a), rest)
  {
    assert ([a] + rest)[1..] == rest;
  }

  lemma WakeStep(max: int, s: System, d: DrainId)
    requires Inv(max, s) && d in s.drains && s.drains[d].Waiting?
    ensures
      var t := Next(max, s, DrainWake(d, true));
      && t.running == s.running && t.finished == s.finished && t.cancelled == s.cancelled
      && Inv(max, t) && d in t.drains && t.drains == s.drains[d := t.drains[d]]
      && (t.drains[d].Cancelling? || (t.drains[d].Returned? && s.running == {}))
  {
    InvNext(max, s, DrainWake(d, true));
    assert DrainAgrees(s, d);
  }

  lemma WakeAndEnd(max: int, s: System, d: DrainId) returns (rest: seq<Action>)
    requires Inv(max, s) && d in s.drains && s.drains[d].Waiting?
    ensures
      var t := Next(max, s, DrainWake(d, true));
      && Runs(max, t, rest) && After(max, t, rest).drains == s.drains[d := Returned]
      && After(max, t, rest).cancelled == s.cancelled + s.running && After(max, t, rest).finished == s.finished
  {
    hide Inv, Next;
    WakeStep(max, s, d);
    var t := Next(max, s, DrainWake(d, true));
    if t.drains[d].Returned? {
      rest := [];
      assert s.cancelled + s.running == s.cancelled;
    } else {
      rest := CancelAndEnd(max, t, d);
      assert s.drains[d := t.drains[d]][d := Returned] == s.drains[d := Returned];
    }
  }

  // From any reachable state an active drain can return, even if no task ends before its
  // timeout; the tasks that have not ended are cancelled, the finished ones are kept.
  lemma DrainCanReturn(max: int, s: System, d: DrainId) returns (acts: seq<Action>)
    requires Inv(max, s) && Active(s, d)
    ensures Runs(max, s, acts) && After(max, s, acts).drains == s.drains[d := Returned]
    ensures After(max, s, acts).cancelled == s.cancelled + s.running && After(max, s, acts).finished == s.finished
  {
    hide Inv, Next, Runs, After;
    if s.drains[d].Cancelling? {
      acts := CancelAndEnd(max, s, d);
    } else {
      var rest := WakeAndEnd(max, s, d);
      OneStep(max, s, DrainWake(d, true), rest);
      acts := [DrainWake(d, true)] + rest;
    }
  }
}

module BackgroundTasks {
  import opened TaskRunnerProtocol

  // The runner between awaits; `world` is what its event loop does around it.
  class BackgroundTaskRunner {
    const max: int
    var tasks: set<Id>
    var closed: bool
    var dropped: nat
    var rejected: nat
    ghost var world: System

    ghost predicate Valid()
      reads this
    {
      Inv(max, world) && world.runner == Runner(tasks, closed, dropped, rejected)
    }

    constructor (max: int)
      ensures Valid() && this.max == max && world == INITIAL
    {
      this.max := max;
      tasks, closed, dropped, rejected := {}, false, 0, 0;
      world := INITIAL;
    }

    method SpawnTask(id: Id) returns (ok: bool)
      requires Valid() && id !in world.accepted
      modifies this
      ensures Valid() && world == Next(max, old(world), Spawn(id))
      ensures ok <==> id in world.accepted
      ensures ok <==> !old(closed) && |old(tasks)| < max
      ensures closed == old(closed) && tasks == (if ok then old(tasks) + {id} else old(tasks))
      ensures rejected == old(rejected) + (if old(closed) then 1 else 0)
      ensures dropped == old(dropped) + (if !old(closed) && |old(tasks)| >= max then 1 else 0)
    {
      hide Inv;
      InvNext(max, world, Spawn(id));
      world := Next(max, world, Spawn(id));
      if closed {
        rejected := rejected + 1;
        return false;
      }
      if |tasks| >= max {
        dropped := dropped + 1;
        return false;
      }
      tasks := tasks + {id};
      return true;
    }

    // The done callback of a task.
    method TaskDone(id: Id)
      requires Valid() && Enabled(world, Discard(id))
      modifies this
      ensures Valid() && world == Next(max, old(world), Discard(id))
      ensures tasks == old(tasks) - {id}
      ensures closed == old(closed) && dropped == old(dropped) && rejected == old(rejected)
    {
      InvNext(max, world, Discard(id));
      world := Next(max, world, Discard(id));
      tasks := tasks - {id};
    }

    method StopAdmission()
      requires Valid()
      modifies this
      ensures Valid() && world == Next(max, old(world), CloseAdmission)
      ensures closed && tasks == old(tasks) && dropped == old(dropped) && rejected == old(rejected)
    {
      InvNext(max, world, CloseAdmission);
      world := Next(max, world, CloseAdmission);
      closed := true;
    }

    // drain, up to its first wait; with nothing to wait for it returns.
    method BeginDrain(d: DrainId) returns (pending: set<Id>)
      requires Valid() && d !in world.drains
      modifies this
      ensures Valid() && world == Next(max, old(world), DrainStart(d))
      ensures closed && tasks == old(tasks) && pending == old(tasks)
      ensures pending == {} <==> world.drains[d].Returned?
    {
      InvNext(max, world, DrainStart(d));
      world := Next(max, world, DrainStart(d));
      closed := true;
      pending := tasks;
    }

    // drain, after its first wait: `late` are the tasks that had not ended, to be cancelled.
    method AfterWait(d: DrainId, timedOut: bool, late: set<Id>) returns (cancel: set<Id>)
      requires Valid() && Enabled(world, DrainWake(d, timedOut)) && late == world.drains[d].snapshot * world.running
      modifies this
      ensures Valid() && world == Next(max, old(world), DrainWake(d, timedOut))
      ensures cancel == late && (cancel == {} <==> world.drains[d].Returned?)
      ensures tasks == (if cancel == {} then {} else old(tasks))
      ensures cancel == {} ==> world.running == {}
    {
      InvNext(max, world, DrainWake(d, timedOut));
      world := Next(max, world, DrainWake(d, timedOut));
      if late != {} {
        return late;
      }
      tasks := {};
      return {};
    }

    // drain, after the cancelled tasks have ended.
    method FinishDrain(d: DrainId)
      requires Valid() && Enabled(world, DrainEnd(d))
      modifies this
      ensures Valid() && world == Next(max, old(world), DrainEnd(d))
      ensures tasks == {} && world.running == {} && world.accepted == world.finished + world.cancelled
    {
      InvNext(max, world, DrainEnd(d));
      world := Next(max, world, DrainEnd(d));
      tasks := {};
    }
  }
}

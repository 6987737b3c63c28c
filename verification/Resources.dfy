// Shutdown of the application's resources: reverse order, one deadline, failures tolerated.
// Times are seconds on the monotonic clock, as real numbers.

module ResourceSchedule {
  const RESERVE := 1.0

  // What a cleanup does if it is left alone: it ends after some time, normally or by raising.
  datatype Cleanup = Cleanup(duration: real, raises: bool)

  datatype Resource = Resource(name: string, cleanup: Cleanup, budget: real)

  predicate Possible(r: Resource) { r.cleanup.duration >= 0.0 }

  predicate AllPossible(rs: seq<Resource>) {
    forall i :: 0 <= i < |rs| ==> Possible(rs[i])
  }

  function Min(x: real, y: real): real { if y < x then y else x }

  function Max(x: real, y: real): real { if x < y then y else x }

  function Remaining(deadline: real, elapsed: real): real {
    if deadline - elapsed <= 0.0 then RESERVE else deadline - elapsed
  }

  function Allotted(deadline: real, elapsed: real, budget: real): real {
    Min(budget, Remaining(deadline, elapsed))
  }

  // A cleanup that never waits cannot time out.
  predicate InTime(c: Cleanup, allotted: real) {
    c.duration == 0.0 || c.duration < allotted
  }

  // `asyncio.timeout`: the cleanup ends by itself or is stopped when its time is up.
  function Spent(c: Cleanup, allotted: real): real {
    if InTime(c, allotted) then c.duration else Max(allotted, 0.0)
  }

  predicate Fails(c: Cleanup, allotted: real) {
    !InTime(c, allotted) || c.raises
  }

  function Reversed(rs: seq<Resource>): (qs: seq<Resource>)
    ensures |qs| == |rs| && forall i :: 0 <= i < |qs| ==> qs[i] == rs[|rs| - 1 - i]
  {
    seq(|rs|, i requires 0 <= i < |rs| => rs[|rs| - 1 - i])
  }

  // The time after the first `k` cleanups of the order.
  function Elapsed(deadline: real, order: seq<Resource>, k: nat): real
    requires k <= |order|
  {
    if k == 0 then 0.0
    else
      var before := Elapsed(deadline, order, k - 1);
      before + Spent(order[k - 1].cleanup, Allotted(deadline, before, order[k - 1].budget))
  }

  predicate FailsAt(deadline: real, order: seq<Resource>, i: nat)
    requires i < |order|
  {
    Fails(order[i].cleanup, Allotted(deadline, Elapsed(deadline, order, i), order[i].budget))
  }

  // The positions of the failed cleanups among the first `k`, in order.
  function Failed(deadline: real, order: seq<Resource>, k: nat): (at: seq<nat>)
    requires k <= |order|
    ensures forall i :: 0 <= i < |at| ==> at[i] < k
  {
    if k == 0 then []
    else Failed(deadline, order, k - 1) + if FailsAt(deadline, order, k - 1) then [k - 1] else []
  }

  function Names(order: seq<Resource>, at: seq<nat>): seq<string>
    requires forall i :: 0 <= i < |at| ==> at[i] < |order|
  {
    seq(|at|, i requires 0 <= i < |at| => order[at[i]].name)
  }

  // Exactly the failed cleanups are listed, each once, in the order they ran.
  lemma {:induction false} FailedExactly(deadline: real, order: seq<Resource>, k: nat)
    requires k <= |order|
    ensures
      var failed := Failed(deadline, order, k);
      && (forall i, j :: 0 <= i < j < |failed| ==> failed[i] < failed[j])
      && (forall i: nat :: i in failed <==> i < k && FailsAt(deadline, order, i))
  {
    if k > 0 {
      FailedExactly(deadline, order, k - 1);
    }
  }

  // ---------------------------------------------------------------------------------------
  // How long it takes
  // ---------------------------------------------------------------------------------------

  // With a positive deadline: the first resource ends by the deadline, and every later one adds
  // at most the reserve of one second beyond it.
  lemma {:induction false} DeadlineBound(deadline: real, order: seq<Resource>, k: nat)
    requires AllPossible(order) && deadline > 0.0 && 1 <= k <= |order|
    ensures 0.0 <= Elapsed(deadline, order, k) <= deadline + (k - 1) as real
  {
    assert Possible(order[k - 1]);
    if k == 1 {
      assert Elapsed(deadline, order, 0) == 0.0;
    } else {
      DeadlineBound(deadline, order, k - 1);
    }
  }

  // Without one, every resource has the reserve only.
  lemma {:induction false} ReserveBound(deadline: real, order: seq<Resource>, k: nat)
    requires AllPossible(order) && deadline <= 0.0 && k <= |order|
    ensures 0.0 <= Elapsed(deadline, order, k) <= k as real
  {
    if k > 0 {
      assert Possible(order[k - 1]);
      ReserveBound(deadline, order, k - 1);
    }
  }

  function Budgets(order: seq<Resource>, k: nat): real
    requires k <= |order|
  {
    if k == 0 then 0.0 else Budgets(order, k - 1) + Max(order[k - 1].budget, 0.0)
  }

  lemma {:induction false} BudgetBound(deadline: real, order: seq<Resource>, k: nat)
    requires AllPossible(order) && k <= |order|
    ensures 0.0 <= Elapsed(deadline, order, k) <= Budgets(order, k)
  {
    if k > 0 {
      assert Possible(order[k - 1]);
      BudgetBound(deadline, order, k - 1);
    }
  }

  predicate Hangs(deadline: real, r: Resource) {
    r.budget >= deadline && r.budget >= 1.0 && r.cleanup.duration >= r.budget
  }

  // The deadline bound is reached by any number of resources that hang.
  lemma {:induction false} DeadlineBoundIsReached(deadline: real, order: seq<Resource>, k: nat)
    requires deadline > 0.0 && 1 <= k <= |order|
    requires forall i :: 0 <= i < |order| ==> Hangs(deadline, order[i])
    ensures Elapsed(deadline, order, k) == deadline + (k - 1) as real
    ensures FailsAt(deadline, order, k - 1)
  {
    assert Hangs(deadline, order[k - 1]);
    if k == 1 {
      assert Elapsed(deadline, order, 0) == 0.0;
    } else {
      DeadlineBoundIsReached(deadline, order, k - 1);
    }
  }

  // Every resource gets some time. It gets the reserve, or its budget if that is less, exactly
  // when the deadline has passed or that much is left: just before the deadline it may get less.
  lemma ReserveIsNoFloor(deadline: real, elapsed: real, budget: real)
    requires budget > 0.0
    ensures 0.0 < Allotted(deadline, elapsed, budget) <= budget
    ensures Allotted(deadline, elapsed, budget) >= Min(budget, 1.0) <==>
            deadline - elapsed <= 0.0 || deadline - elapsed >= Min(budget, 1.0)
  {
  }

  function Durations(order: seq<Resource>, k: nat): real
    requires k <= |order|
  {
    if k == 0 then 0.0 else Durations(order, k - 1) + order[k - 1].cleanup.duration
  }

  // If every cleanup stays below its budget and all of them together below the deadline, the shutdown
  // takes the sum of their durations, and only those that raise are failures.
  lemma {:induction false} EnoughTime(deadline: real, order: seq<Resource>, k: nat)
    requires AllPossible(order) && k <= |order| && Durations(order, k) < deadline
    requires forall i :: 0 <= i < |order| ==> order[i].cleanup.duration < order[i].budget
    ensures Elapsed(deadline, order, k) == Durations(order, k) >= 0.0
    ensures forall i :: 0 <= i < k ==> (FailsAt(deadline, order, i) <==> order[i].cleanup.raises)
  {
    if k > 0 {
      assert Possible(order[k - 1]);
      EnoughTime(deadline, order, k - 1);
    }
  }

  // A cleanup that needs no more than its budget and the time left succeeds unless it raises.
  lemma FitsIffInTime(deadline: real, order: seq<Resource>, i: nat)
    requires AllPossible(order) && i < |order| && order[i].cleanup.duration > 0.0
    ensures
      var d := order[i].cleanup.duration;
      var left := deadline - Elapsed(deadline, order, i);
      FailsAt(deadline, order, i) <==>
      order[i].cleanup.raises || d >= order[i].budget || (left > 0.0 && d >= left) || (left <= 0.0 && d >= 1.0)
  {
  }
}

module Resources {
  import opened ResourceSchedule

  class ResourceManager {
    const deadline: real
    var resources: seq<Resource>
    var closed: bool

    ghost predicate Valid()
      reads this
    {
      AllPossible(resources)
    }

    constructor (deadline: real)
      ensures Valid() && this.deadline == deadline && resources == [] && !closed
    {
      this.deadline := deadline;
      resources, closed := [], false;
    }

    // False: the manager is closed and the resource was refused.
    method Register(r: Resource) returns (ok: bool)
      requires Valid() && Possible(r)
      modifies this`resources
      ensures Valid() && ok == !closed
      ensures resources == old(resources) + if ok then [r] else []
    {
      if closed {
        return false;
      }
      resources := resources + [r];
      return true;
    }

    // Registers the cleanup before it starts the resource, so a failed start leaves it registered.
    method Acquire(r: Resource, startRaises: bool) returns (ok: bool, started: bool)
      requires Valid() && Possible(r)
      modifies this`resources
      ensures Valid() && ok == (!closed && !startRaises) && started == !closed
      ensures resources == old(resources) + if closed then [] else [r]
    {
      var registered := Register(r);
      if !registered {
        return false, false;
      }
      return !startRaises, true;
    }

    // Calls every cleanup, last registered first. `ran` lists them in the order of the calls.
    method CleanUp() returns (ran: seq<Resource>, failures: seq<string>, elapsed: real)
      ensures
        var n, order := |resources|, Reversed(resources);
        && ran == order
        && failures == Names(order, Failed(deadline, order, n))
        && elapsed == Elapsed(deadline, order, n)
    {
      ran, failures, elapsed := [], [], 0.0;
      ghost var n, order := |resources|, Reversed(resources);
      var i := |resources|;
      while i > 0
        invariant 0 <= i <= n
        invariant ran == order[..n - i]
        invariant elapsed == Elapsed(deadline, order, n - i)
        invariant failures == Names(order, Failed(deadline, order, n - i))
      {
        i := i - 1;
        var r := resources[i];
        assert order[n - 1 - i] == r;
        var remaining := deadline - elapsed;
        if remaining <= 0.0 {
          remaining := RESERVE;
        }
        var allotted := Min(r.budget, remaining);
        ran := ran + [r];
        if Fails(r.cleanup, allotted) {
          failures := failures + [r.name];
        }
        elapsed := elapsed + Spent(r.cleanup, allotted);
      }
    }

    method Close() returns (ran: seq<Resource>, failures: seq<string>, elapsed: real)
      requires Valid()
      modifies this`closed
      ensures Valid() && closed
      ensures old(closed) ==> ran == [] && failures == [] && elapsed == 0.0
      ensures !old(closed) ==>
        var n, order := |resources|, Reversed(resources);
        && ran == order
        && failures == Names(order, Failed(deadline, order, n))
        && elapsed == Elapsed(deadline, order, n)
        && (deadline > 0.0 && n >= 1 ==> elapsed <= deadline + (n - 1) as real)
        && elapsed <= Budgets(order, n)
    {
      if closed {
        return [], [], 0.0;
      }
      closed := true;
      if resources == [] {
        return [], [], 0.0;
      }
      ran, failures, elapsed := CleanUp();
      BudgetBound(deadline, Reversed(resources), |resources|);
      if deadline > 0.0 {
        DeadlineBound(deadline, Reversed(resources), |resources|);
      }
    }
  }
}

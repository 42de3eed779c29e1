/** src/worker_pool.rs: the adaptive pool, and the ledger that ties the permits in circulation to the
    `current` counter when `forget_permits` removes fewer permits than asked. */
module WorkerPool {
  import opened Numbers

  datatype Limits = Limits(min: nat, max: nat)

  /** The bounds a constructed pool can have. */
  type Bounds = b: Limits | 1 <= b.min <= b.max witness Limits(1, 1)

  /** The clamping done by `new`. */
  function Clamped(minWorkers: nat, maxWorkers: nat): (b: Bounds)
    ensures 1 <= minWorkers <= maxWorkers ==> b == Limits(minWorkers, maxWorkers)
    ensures maxWorkers >= 1 ==> b.max == maxWorkers
    ensures minWorkers > maxWorkers ==> b.min == b.max
    ensures minWorkers == 0 ==> b.min == 1
    ensures maxWorkers == 0 ==> b == Limits(1, 1)
  {
    var max := Max(maxWorkers, 1);
    Limits(Max(Min(minWorkers, max), 1), max)
  }

  /** The scaling policy: one extra worker for every two queued jobs, within the bounds. */
  function Plan(b: Bounds, queueLen: nat): nat {
    Max(b.min, Min(b.min + queueLen / 2, b.max))
  }

  /** The policy starts at the minimum, is monotone and within the bounds, answers one job less with at
      most one worker less, and two jobs more with one worker more until the maximum. */
  lemma PlanShape(b: Bounds, shorter: nat, longer: nat)
    requires shorter <= longer
    ensures b.min == Plan(b, 0) <= Plan(b, shorter) <= Plan(b, longer) <= b.max
    ensures longer <= shorter + 1 ==> Plan(b, longer) <= Plan(b, shorter) + 1
    ensures Plan(b, 1) == b.min && Plan(b, longer + 2) == Min(Plan(b, longer) + 1, b.max)
  {
  }

  /** `idle` is the number of available permits of the semaphore, `current` the atomic counter. */
  datatype Pool = Pool(idle: nat, current: nat)

  /** Permits in circulation beyond the advertised pool size, `held` of them owned by workers. */
  function Drift(p: Pool, held: nat): int { p.idle + held - p.current }

  /** One uncontended `reconfigure`: growing adds the difference, shrinking forgets idle permits only. */
  function Reconfigured(p: Pool, desired: nat): Pool {
    if desired >= p.current then Pool(p.idle + (desired - p.current), desired)
    else Pool(p.idle - Min(p.current - desired, p.idle), desired)
  }

  /** The ledger of one call: drift is a running maximum of the workers a call found above its target. */
  lemma ReconfigureLedger(p: Pool, held: nat, desired: nat)
    requires Drift(p, held) >= 0
    ensures var q := Reconfigured(p, desired);
            && q.current == desired
            && Drift(q, held) == Max(Drift(p, held), held - desired)
            && q.idle + held == Max(desired + Drift(p, held), held)
  {
  }

  /** The intended cap, permits never above the pool size, survives a call exactly when the call finds
      no more workers running than it allows; once lost it is never regained. */
  lemma CapSurvivesExactlyWhen(p: Pool, held: nat, desired: nat)
    requires Drift(p, held) >= 0
    ensures Drift(Reconfigured(p, desired), held) == 0 <==> Drift(p, held) == 0 && held <= desired
  {
  }

  /** What one call saw: the permits owned by workers and the size it aimed for. */
  datatype Resize = Resize(held: nat, desired: nat)

  /** The largest number of workers any call of the history found above its target, or 0. */
  function WorstExcess(history: seq<Resize>): nat {
    if history == [] then 0
    else
      var last := history[|history| - 1];
      Max(WorstExcess(history[..|history| - 1]), last.held - last.desired)
  }

  lemma {:induction false} WorstExcessIsAttained(history: seq<Resize>)
    ensures forall r | r in history :: r.held - r.desired <= WorstExcess(history)
    ensures WorstExcess(history) > 0 ==> exists r :: r in history && r.held - r.desired == WorstExcess(history)
  {
    if history != [] {
      var last := history[|history| - 1];
      var front := history[..|history| - 1];
      WorstExcessIsAttained(front);
      assert forall r | r in history :: r in front || r == last;
      if WorstExcess(history) > 0 {
        if WorstExcess(front) < last.held - last.desired {
          assert last in history;
        } else {
          var r :| r in front && r.held - r.desired == WorstExcess(front);
          assert r in history;
        }
      }
    }
  }

  class AdaptiveWorkerPool {
    var available: nat
    var current: nat
    const bounds: Bounds
    ghost var held: nat
    ghost var history: seq<Resize>

    ghost function Snapshot(): Pool
      reads this
    {
      Pool(available, current)
    }

    /** The exact ledger: permits in circulation exceed `current` by the worst excess ever found. */
    ghost predicate Valid()
      reads this
    {
      && bounds.min <= current <= bounds.max
      && Drift(Snapshot(), held) == WorstExcess(history)
    }

    constructor (minWorkers: nat, maxWorkers: nat)
      ensures Valid() && bounds == Clamped(minWorkers, maxWorkers)
      ensures Snapshot() == Pool(bounds.min, bounds.min) && held == 0 && history == []
    {
      var clamped := Clamped(minWorkers, maxWorkers);
      bounds := clamped;
      available, current := clamped.min, clamped.min;
      held, history := 0, [];
    }

    /** A successful acquire: the source waits until a permit is available. */
    method Acquire()
      requires Valid() && available > 0
      modifies this
      ensures Valid() && held == old(held) + 1 && history == old(history)
      ensures Snapshot() == old(Snapshot()).(idle := old(available) - 1)
    {
      available, held := available - 1, held + 1;
    }

    /** Dropping an owned permit. */
    method Release()
      requires Valid() && held > 0
      modifies this
      ensures Valid() && held == old(held) - 1 && history == old(history)
      ensures Snapshot() == old(Snapshot()).(idle := old(available) + 1)
    {
      available, held := available + 1, held - 1;
    }

    /** The compare-exchange loop, run by a single caller. */
    method Reconfigure(queueLen: nat) returns (size: nat)
      requires Valid()
      modifies this
      ensures Valid() && held == old(held)
      ensures size == Plan(bounds, queueLen)
      ensures history == old(history) + [Resize(held, size)]
      ensures Snapshot() == Reconfigured(old(Snapshot()), size)
      ensures Drift(Snapshot(), held) == Max(old(Drift(Snapshot(), held)), held - size)
    {
      var desired := Plan(bounds, queueLen);
      PlanShape(bounds, queueLen, queueLen);
      ReconfigureLedger(Snapshot(), held, desired);
      var seen := current;
      while desired != seen
        invariant seen == current
        invariant held == old(held) && history == old(history)
        invariant if seen == old(current) then Snapshot() == old(Snapshot())
                  else seen == desired && Snapshot() == Reconfigured(old(Snapshot()), desired)
        decreases seen != desired
      {
        if desired > seen {
          available := available + (desired - seen);
        } else {
          available := available - Min(seen - desired, available);
        }
        var actual := current;
        if actual == seen {
          current := desired;
          actual := desired;
        }
        seen := actual;
      }
      history := history + [Resize(held, desired)];
      assert history[..|history| - 1] == old(history);
      size := desired;
    }

    method CurrentSize() returns (size: nat)
      requires Valid()
      ensures size == current && bounds.min <= size <= bounds.max
    {
      size := current;
    }
  }
}

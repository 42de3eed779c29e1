/** How far the number of running workers can exceed MAX_CONCURRENCY: the bound of the permit ledger is
    attained, and the exact configurations in which the documented cap holds. */
module PoolCap {
  import opened Wrappers
  import opened Messages
  import opened WorkerPool
  import opened Gateway
  import opened GatewayInvariants
  import opened GatewayTheorems
  import opened Scenarios

  /** The dispatcher pops a job, one more may arrive, and the pool is resized for what is left. */
  lemma Pull(c: Config, s: State, refill: bool) returns (t: State)
    requires Reachable(c, s) && s.hand.Empty? && s.queue != []
    ensures Reachable(c, t) && t.hand.Sized? && t.calling == s.calling && t.releasing == s.releasing
    ensures |t.queue| == |s.queue| - 1 + One(refill)
    ensures var desired := Plan(c.bounds, |t.queue|);
            && t.pool == Reconfigured(s.pool, desired)
            && t.shrinks == s.shrinks + One(desired < s.pool.current)
  {
    Always(c, s);
    t := Advance(c, s, Receive);
    if refill {
      t := Accept(c, t, Http(None, InferRequest("m", "i", None, None)), "id");
    }
    t := Advance(c, t, Measure);
    t := Advance(c, t, Reconfigure);
  }

  /** A waiting dispatcher takes an idle permit and starts a worker. */
  lemma Start(c: Config, s: State) returns (t: State)
    requires Reachable(c, s) && s.hand.Sized? && s.pool.idle > 0
    ensures Reachable(c, t) && t.hand.Empty? && |t.calling| == |s.calling| + 1 && t.releasing == s.releasing
    ensures t.queue == s.queue && t.pool == s.pool.(idle := s.pool.idle - 1) && t.shrinks == s.shrinks
  {
    Always(c, s);
    HandNotDispatched(s);
    assert s.hand.job !in s.calling;
    t := Advance(c, s, Spawn);
  }

  /** Some worker answers and releases its permit. */
  lemma FreeOne(c: Config, s: State) returns (t: State)
    requires Reachable(c, s) && s.calling != {} && s.releasing == {}
    ensures Reachable(c, t) && t.hand == s.hand && |t.calling| == |s.calling| - 1 && t.releasing == {}
    ensures t.queue == s.queue && t.pool == s.pool.(idle := s.pool.idle + 1) && t.shrinks == s.shrinks
  {
    Always(c, s);
    var job :| job in s.calling;
    assert job in s.accepted;
    assert JobOk(s, job);
    t := Advance(c, s, Complete(job, CallFailed("refused")));
    assert |t.calling| == |s.calling| - 1;
    t := Advance(c, t, Release(job));
    assert t.releasing == {};
  }

  lemma {:induction false} Fill(c: Config, s: State, n: nat) returns (t: State)
    requires Reachable(c, s) && |s.queue| <= n <= c.capacity
    ensures Reachable(c, t) && |t.queue| == n
    ensures t.hand == s.hand && t.calling == s.calling && t.releasing == s.releasing
    ensures t.pool == s.pool && t.shrinks == s.shrinks
    decreases n - |s.queue|
  {
    t := s;
    if |s.queue| < n {
      t := Accept(c, s, Http(None, InferRequest("m", "i", None, None)), "id");
      t := Fill(c, t, n);
    }
  }

  function Room(c: Config): int { Ceiling(c) - c.bounds.min }

  /** All permits of a full-size pool are with workers, the backlog asks for exactly that size, and
      `k` shrinks lie behind. */
  ghost predicate Level(c: Config, s: State, k: nat) {
    && Reachable(c, s)
    && s.hand.Empty? && s.releasing == {}
    && |s.queue| == 2 * Room(c)
    && s.pool == Pool(0, Ceiling(c))
    && |s.calling| == Ceiling(c) + k
    && s.shrinks == k
  }

  lemma RoomShape(c: Config)
    ensures 0 <= Room(c) && 2 * Room(c) <= c.capacity
    ensures Plan(c.bounds, 2 * Room(c)) == Ceiling(c)
    ensures Room(c) >= 1 ==> Plan(c.bounds, 2 * Room(c) - 1) == Ceiling(c) - 1
  {
    PlanShape(c.bounds, 0, c.capacity);
  }

  lemma {:induction false} Saturate(c: Config, s: State) returns (t: State)
    requires Room(c) >= 1 && Reachable(c, s) && s.hand.Empty? && s.releasing == {}
    requires |s.queue| == 2 * Room(c) && s.pool.current == Ceiling(c)
    requires s.shrinks == 0 && |s.calling| + s.pool.idle == Ceiling(c)
    ensures Level(c, t, 0)
    decreases s.pool.idle
  {
    t := s;
    if s.pool.idle > 0 {
      RoomShape(c);
      t := Pull(c, s, true);
      t := Start(c, t);
      t := Saturate(c, t);
    }
  }

  lemma LevelZero(c: Config) returns (t: State)
    requires Room(c) >= 1
    ensures Level(c, t, 0)
  {
    RoomShape(c);
    ReachInit(c);
    t := Fill(c, Init(c), 2 * Room(c));
    t := Pull(c, t, true);
    t := Start(c, t);
    t := Saturate(c, t);
  }

  /** One job fewer behind shrinks the pool by one permit it cannot forget; one more brings it back. */
  lemma LevelUp(c: Config, s: State, k: nat) returns (t: State)
    requires Room(c) >= 1 && Level(c, s, k)
    ensures Level(c, t, k + 1)
  {
    RoomShape(c);
    t := Pull(c, s, false);
    t := FreeOne(c, t);
    t := Start(c, t);
    t := Fill(c, t, 2 * Room(c));
    t := Pull(c, t, true);
    t := Start(c, t);
  }

  lemma {:induction false} LevelReached(c: Config, k: nat) returns (t: State)
    requires Room(c) >= 1
    ensures Level(c, t, k)
  {
    if k == 0 {
      t := LevelZero(c);
    } else {
      var s := LevelReached(c, k - 1);
      t := LevelUp(c, s, k - 1);
    }
  }

  /** The ledger's bound is tight for every number of shrinks, whenever the pool can grow at all. */
  lemma BoundIsAttained(c: Config, k: nat)
    requires Ceiling(c) > c.bounds.min
    ensures exists s :: Reachable(c, s) && s.shrinks == k && |s.calling| == Ceiling(c) + k
  {
    var s := LevelReached(c, k);
    assert Reachable(c, s) && s.shrinks == k && |s.calling| == Ceiling(c) + k;
  }

  /** The documented cap, never more than MAX_CONCURRENCY running workers, holds in every reachable state
      exactly when the pool is of fixed size or the queue is too short to make it grow. */
  lemma CapHoldsExactlyWhen(c: Config)
    ensures (forall s | Reachable(c, s) :: Held(s) <= c.bounds.max)
            <==> c.bounds.min == c.bounds.max || c.capacity < 2
  {
    PlanShape(c.bounds, 0, c.capacity);
    if c.bounds.min == c.bounds.max || c.capacity < 2 {
      assert Ceiling(c) == c.bounds.min;
      forall s | Reachable(c, s)
        ensures Held(s) <= c.bounds.max
      {
        Always(c, s);
        PermitLedger(c, s);
      }
    } else {
      assert Ceiling(c) > c.bounds.min;
      var excess := c.bounds.max - Ceiling(c) + 1;
      BoundIsAttained(c, excess);
      var s :| Reachable(c, s) && s.shrinks == excess && |s.calling| == Ceiling(c) + excess;
      assert Held(s) > c.bounds.max;
    }
  }
}

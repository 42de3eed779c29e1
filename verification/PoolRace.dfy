/** src/worker_pool.rs, `reconfigure` called by several tasks at once: the load, the permit update and
    the compare-exchange are separate steps, and a failed exchange does not undo its permit update. */
module PoolRace {
  import opened Numbers
  import opened Summation
  import opened WorkerPool

  /** Where a caller is. `seen` is the value it loaded, `stamp` the number of successful exchanges by
      then; `fails` and `wins` count its exchanges. */
  datatype Caller = Caller(pc: Pc, fails: nat, wins: nat)
  datatype Pc = Idle | Loaded(desired: nat, seen: nat, stamp: nat) | Applied(desired: nat, seen: nat, stamp: nat)

  /** `shortfall` sums what `forget_permits` could not forget, `stray` the deltas left behind by failed
      exchanges, `version` counts the successful ones. */
  datatype State = State(
    pool: Pool, held: nat, callers: seq<Caller>, shortfall: nat, stray: int, version: nat)

  datatype Event =
    | Load(who: nat, desired: nat)
    | Return(who: nat)
    | Apply(who: nat)
    | Exchange(who: nat)
    | Take
    | Drop

  ghost predicate Enabled(s: State, e: Event) {
    match e
    case Load(who, _) => who < |s.callers| && s.callers[who].pc.Idle?
    case Return(who) => who < |s.callers| && s.callers[who].pc.Loaded?
        && s.callers[who].pc.desired == s.callers[who].pc.seen
    case Apply(who) => who < |s.callers| && s.callers[who].pc.Loaded?
        && s.callers[who].pc.desired != s.callers[who].pc.seen
    case Exchange(who) => who < |s.callers| && s.callers[who].pc.Applied?
    case Take => s.pool.idle > 0
    case Drop => s.held > 0
  }

  ghost function Forgotten(pool: Pool, pc: Pc): nat
    requires pc.Loaded?
  {
    if pc.desired < pc.seen then Min(pc.seen - pc.desired, pool.idle) else 0
  }

  ghost function Next(s: State, e: Event): State
    requires Enabled(s, e)
  {
    match e
    case Load(who, desired) => At(s, who, Loaded(desired, s.pool.current, s.version))
    case Return(who) => At(s, who, Idle)
    case Apply(who) =>
      var pc := s.callers[who].pc;
      var t := At(s, who, Applied(pc.desired, pc.seen, pc.stamp));
      if pc.desired > pc.seen then t.(pool := s.pool.(idle := s.pool.idle + (pc.desired - pc.seen)))
      else
        var forgotten := Forgotten(s.pool, pc);
        t.(pool := s.pool.(idle := s.pool.idle - forgotten),
           shortfall := s.shortfall + (pc.seen - pc.desired - forgotten))
    case Exchange(who) =>
      var c := s.callers[who];
      if s.pool.current == c.pc.seen then
        s.(callers := s.callers[who := c.(pc := Idle, wins := c.wins + 1)],
           pool := s.pool.(current := c.pc.desired),
           version := s.version + 1)
      else
        s.(callers := s.callers[who := c.(pc := Loaded(c.pc.desired, s.pool.current, s.version), fails := c.fails + 1)],
           stray := s.stray + (c.pc.desired - c.pc.seen))
    case Take => s.(pool := s.pool.(idle := s.pool.idle - 1), held := s.held + 1)
    case Drop => s.(pool := s.pool.(idle := s.pool.idle + 1), held := s.held - 1)
  }

  ghost function At(s: State, who: nat, pc: Pc): State
    requires who < |s.callers|
  {
    s.(callers := s.callers[who := s.callers[who].(pc := pc)])
  }

  ghost function Init(b: Bounds, callers: nat): State {
    State(Pool(b.min, b.min), 0, seq(callers, _ => Caller(Idle, 0, 0)), 0, 0, 0)
  }

  ghost predicate CanRun(s: State, es: seq<Event>)
    decreases |es|
  {
    es == [] || (Enabled(s, es[0]) && CanRun(Next(s, es[0]), es[1..]))
  }

  ghost function Run(s: State, es: seq<Event>): State
    requires CanRun(s, es)
    decreases |es|
  {
    if es == [] then s else Run(Next(s, es[0]), es[1..])
  }

  ghost function PendingDelta(c: Caller): int {
    if c.pc.Applied? then c.pc.desired - c.pc.seen else 0
  }

  ghost function Wins(c: Caller): int { c.wins }

  ghost predicate CallerOk(s: State, c: Caller) {
    match c.pc
    case Idle => c.fails + c.wins <= s.version
    case Loaded(_, seen, stamp) => c.fails + c.wins <= stamp <= s.version && (stamp == s.version
        ==> seen == s.pool.current)
    case Applied(desired, seen, stamp) =>
      c.fails + c.wins <= stamp <= s.version && (stamp == s.version ==> seen == s.pool.current) && desired != seen
  }

  ghost predicate Inv(s: State) {
    && Drift(s.pool, s.held) == s.shortfall + s.stray + Sum(PendingDelta, s.callers)
    && s.version == Sum(Wins, s.callers)
    && forall who | 0 <= who < |s.callers| :: CallerOk(s, s.callers[who])
  }

  lemma InitHolds(b: Bounds, callers: nat)
    ensures Inv(Init(b, callers))
  {
    var idle := seq(callers, _ => Caller(Idle, 0, 0));
    SumZero(PendingDelta, idle);
    SumZero(Wins, idle);
  }

  lemma StepKeeps(s: State, e: Event)
    requires Inv(s) && Enabled(s, e)
    ensures Inv(Next(s, e))
  {
    hide Sum;
    if !e.Take? && !e.Drop? {
      var t := Next(s, e);
      SumUpdate(PendingDelta, s.callers, e.who, t.callers[e.who]);
      SumUpdate(Wins, s.callers, e.who, t.callers[e.who]);
      assert t.callers == s.callers[e.who := t.callers[e.who]];
      assert CallerOk(s, s.callers[e.who]);
      assert CallerOk(t, t.callers[e.who]);
    }
  }

  lemma {:induction false} RunKeeps(s: State, es: seq<Event>)
    requires Inv(s) && CanRun(s, es)
    ensures Inv(Run(s, es))
    decreases |es|
  {
    if es != [] {
      StepKeeps(s, es[0]);
      RunKeeps(Next(s, es[0]), es[1..]);
    }
  }

  /** Main ledger of interleaved calls: whatever the interleaving, and even when `current` leaves a
      value and returns to it, the permits in circulation differ from `current` by exactly the
      un-forgotten shortfall, the deltas of failed exchanges, and those not yet exchanged. */
  lemma InterleavedLedger(b: Bounds, callers: nat, es: seq<Event>)
    requires CanRun(Init(b, callers), es)
    ensures var s := Run(Init(b, callers), es);
            && s.pool.idle + s.held - s.pool.current == s.shortfall + s.stray + Sum(PendingDelta, s.callers)
            && ((forall c | c in s.callers :: !c.pc.Applied?) ==> Drift(s.pool, s.held) == s.shortfall + s.stray)
  {
    InitHolds(b, callers);
    RunKeeps(Init(b, callers), es);
    var s := Run(Init(b, callers), es);
    if forall c | c in s.callers :: !c.pc.Applied? {
      assert forall i | 0 <= i < |s.callers| :: s.callers[i] in s.callers;
      SumZero(PendingDelta, s.callers);
    }
  }

  /** Lock-freedom: a caller's exchange fails no more often than the other callers' exchanges succeed. */
  lemma FailuresPaidBySuccesses(b: Bounds, callers: nat, es: seq<Event>, who: nat)
    requires CanRun(Init(b, callers), es) && who < |Run(Init(b, callers), es).callers|
    ensures var s := Run(Init(b, callers), es);
            && s.callers[who].fails <= Sum(Wins, s.callers) - s.callers[who].wins
            && (|s.callers| == 1 ==> s.callers[who].fails == 0)
  {
    InitHolds(b, callers);
    RunKeeps(Init(b, callers), es);
    var s := Run(Init(b, callers), es);
    assert CallerOk(s, s.callers[who]);
    if |s.callers| == 1 {
      assert Sum(Wins, s.callers) == Sum(Wins, s.callers[..0]) + Wins(s.callers[0]);
    }
  }

  // When the permits are right.

  ghost predicate AllIdle(s: State) { forall c | c in s.callers :: c.pc.Idle? }

  /** Every call aims for a size the scaling policy can plan. */
  ghost predicate AimsWithin(b: Bounds, es: seq<Event>) {
    forall i | 0 <= i < |es| :: es[i].Load? ==> b.min <= es[i].desired <= b.max
  }

  /** The promise of the compare-exchange loop: whenever no call is under way, the permits exceed the size
      by exactly what `forget_permits` found in use, so no permit was added or forgotten twice. */
  ghost predicate NeverMoreThanNeeded(b: Bounds, callers: nat) {
    forall es | CanRun(Init(b, callers), es) && AimsWithin(b, es) && AllIdle(Run(Init(b, callers), es)) ::
      var s := Run(Init(b, callers), es);
      Drift(s.pool, s.held) == s.shortfall
  }

  /** With one caller nothing can fail: its stamp is always the current version. */
  lemma {:induction false} SoloRun(s: State, es: seq<Event>)
    requires Inv(s) && |s.callers| <= 1 && s.stray == 0 && CanRun(s, es)
    ensures Run(s, es).stray == 0 && |Run(s, es).callers| == |s.callers|
    decreases |es|
  {
    if es != [] {
      var e := es[0];
      if e.Exchange? {
        assert CallerOk(s, s.callers[0]);
        assert Sum(Wins, s.callers) == Sum(Wins, s.callers[..0]) + Wins(s.callers[0]);
      }
      StepKeeps(s, e);
      SoloRun(Next(s, e), es[1..]);
    }
  }

  /** With a fixed size every call returns at once. */
  lemma {:induction false} FixedRun(b: Bounds, s: State, es: seq<Event>)
    requires b.min == b.max && s.pool.current == b.min && s.stray == 0
    requires forall c | c in s.callers :: c.pc.Idle? || (c.pc.Loaded? && c.pc.desired == c.pc.seen == b.min)
    requires CanRun(s, es) && AimsWithin(b, es)
    ensures Run(s, es).stray == 0
    decreases |es|
  {
    if es != [] {
      var e, t := es[0], Next(s, es[0]);
      assert forall i | 0 <= i < |s.callers| :: s.callers[i] in s.callers;
      assert t.callers == s.callers || t.callers == s.callers[e.who := t.callers[e.who]];
      forall i | 0 <= i < |es[1..]|
        ensures es[1..][i].Load? ==> b.min <= es[1..][i].desired <= b.max
      {
        assert es[1..][i] == es[i + 1];
      }
      FixedRun(b, t, es[1..]);
    }
  }

  lemma {:induction false} Extend(s: State, es: seq<Event>, e: Event)
    requires CanRun(s, es) && Enabled(Run(s, es), e)
    ensures CanRun(s, es + [e]) && Run(s, es + [e]) == Next(Run(s, es), e)
    decreases |es|
  {
    if es == [] {
      assert CanRun(Next(s, e), []) && [e][1..] == [];
    } else {
      assert (es + [e])[1..] == es[1..] + [e];
      Extend(Next(s, es[0]), es[1..], e);
    }
  }

  lemma Advance(b: Bounds, start: State, es: seq<Event>, e: Event) returns (longer: seq<Event>, t: State)
    requires CanRun(start, es) && Enabled(Run(start, es), e) && AimsWithin(b, es + [e])
    ensures CanRun(start, longer) && longer == es + [e]
    ensures t == Run(start, longer) == Next(Run(start, es), e)
  {
    Extend(start, es, e);
    longer, t := es + [e], Next(Run(start, es), e);
  }

  /** Two callers that both see the smallest size and aim for the largest add the difference twice: one
      exchange fails, its caller finds the target already reached and leaves its permits behind. */
  lemma RacingGrowthOvershoots(b: Bounds, callers: nat) returns (es: seq<Event>)
    requires callers >= 2 && b.min < b.max
    ensures CanRun(Init(b, callers), es) && AimsWithin(b, es)
    ensures var s := Run(Init(b, callers), es);
            AllIdle(s) && s.shortfall == 0 && s.held == 0 && s.pool == Pool(b.max + (b.max - b.min), b.max)
  {
    hide Run, CanRun;
    var start := Init(b, callers);
    var s: State;
    es, s := BothAdd(b, callers);
    es, s := Advance(b, start, es, Exchange(0));
    es, s := Advance(b, start, es, Exchange(1));
    es, s := Advance(b, start, es, Return(1));
    assert s.callers[0].pc.Idle? && s.callers[1].pc.Idle?;
  }

  lemma BothAdd(b: Bounds, callers: nat) returns (es: seq<Event>, s: State)
    requires callers >= 2 && b.min < b.max
    ensures CanRun(Init(b, callers), es) && s == Run(Init(b, callers), es) && AimsWithin(b, es)
    ensures s.pool == Pool(b.min + 2 * (b.max - b.min), b.min) && s.shortfall == 0 && s.held == 0
    ensures |s.callers| == callers && forall i | 2 <= i < callers :: s.callers[i].pc.Idle?
    ensures forall i | 0 <= i < 2 :: s.callers[i].pc == Applied(b.max, b.min, 0)
  {
    var start := Init(b, callers);
    assert CanRun(start, []) && Run(start, []) == start;
    hide Run, CanRun;
    es, s := Advance(b, start, [], Load(0, b.max));
    es, s := Advance(b, start, es, Load(1, b.max));
    es, s := Advance(b, start, es, Apply(0));
    es, s := Advance(b, start, es, Apply(1));
  }

  /** The promise "never add or forget more than needed" holds in every interleaving exactly when there is at
      most one caller or the size is fixed. */
  lemma NeverMoreThanNeededExactlyWhen(b: Bounds, callers: nat)
    ensures NeverMoreThanNeeded(b, callers) <==> callers <= 1 || b.min == b.max
  {
    var start := Init(b, callers);
    if callers <= 1 || b.min == b.max {
      forall es | CanRun(start, es) && AimsWithin(b, es) && AllIdle(Run(start, es))
        ensures Drift(Run(start, es).pool, Run(start, es).held) == Run(start, es).shortfall
      {
        InitHolds(b, callers);
        InterleavedLedger(b, callers, es);
        if callers <= 1 {
          SoloRun(start, es);
        } else {
          FixedRun(b, start, es);
        }
      }
    } else {
      var es := RacingGrowthOvershoots(b, callers);
      assert CanRun(start, es) && AimsWithin(b, es) && AllIdle(Run(start, es));
    }
  }

  // A single caller's call is atomic.

  /** Workers taking and dropping permits, whatever the caller is doing. */
  ghost predicate Moves(es: seq<Event>) { forall i | 0 <= i < |es| :: es[i].Take? || es[i].Drop? }

  /** Such moves see and change the idle and the held permits only. */
  lemma {:induction false} MovesAgree(s: State, t: State, es: seq<Event>)
    requires Moves(es) && CanRun(s, es) && s.pool.idle == t.pool.idle && s.held == t.held
    ensures CanRun(t, es)
    ensures var u := Run(s, es);
            Run(t, es) == t.(pool := t.pool.(idle := u.pool.idle), held := u.held)
    decreases |es|
  {
    if es != [] {
      assert es[0].Take? || es[0].Drop?;
      assert forall i | 0 <= i < |es[1..]| :: es[1..][i] == es[i + 1];
      MovesAgree(Next(s, es[0]), Next(t, es[0]), es[1..]);
    }
  }

  /** One call of a single caller: load, permit update and exchange, with any moves of the workers before and
      after the update. The permits and the size end as if the whole call had happened at the update. */
  lemma SoloCallIsAtomic(s: State, desired: nat, before: seq<Event>, after: seq<Event>)
    requires |s.callers| == 1 && s.callers[0].pc.Idle? && desired != s.pool.current
    requires Moves(before) && CanRun(Next(s, Load(0, desired)), before)
    requires var waiting := Run(Next(s, Load(0, desired)), before);
             Enabled(waiting, Apply(0)) && Moves(after) && CanRun(Next(waiting, Apply(0)), after)
    ensures CanRun(s, before)
    ensures var found := Run(s, before);
            var jumped := found.(pool := Reconfigured(found.pool, desired));
            var applied := Next(Run(Next(s, Load(0, desired)), before), Apply(0));
            && Enabled(Run(applied, after), Exchange(0))
            && CanRun(jumped, after)
            && var t := Next(Run(applied, after), Exchange(0));
               t.callers[0].pc.Idle? && t.pool == Run(jumped, after).pool && t.held == Run(jumped, after).held
  {
    var loaded := Next(s, Load(0, desired));
    MovesAgree(loaded, s, before);
    MovesAgree(loaded, loaded, before);
    var found := Run(s, before);
    var applied := Next(Run(loaded, before), Apply(0));
    MovesAgree(applied, applied, after);
    MovesAgree(applied, found.(pool := Reconfigured(found.pool, desired)), after);
  }
}

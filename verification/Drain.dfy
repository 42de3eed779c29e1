/** Deadlock freedom and drain: without new admissions the pipeline empties after a number of steps that
    does not depend on the interleaving. */
module Drain {
  import opened Wrappers
  import opened Messages
  import opened WorkerPool
  import opened Gateway
  import opened GatewayInvariants
  import opened GatewayTheorems
  import opened Scenarios

  predicate IsPipelineEvent(e: Event) { IsDispatcherEvent(e) || IsWorkerEvent(e) }

  function HandCost(hand: Hand): nat {
    match hand
    case Empty => 0
    case Holding(_) => 5
    case Measured(_, _) => 4
    case Sized(_) => 3
  }

  /** The dispatcher and worker steps still owed to the accepted jobs. */
  function Owed(s: State): nat { 6 * |s.queue| + HandCost(s.hand) + 2 * |s.calling| + |s.releasing| }

  predicate Admits(c: Config, s: State, e: Event) { e.TrySend? && |s.queue| < c.capacity }

  lemma OwedStep(c: Config, s: State, e: Event)
    requires Inv(c, s) && Enabled(c, s, e)
    ensures IsPipelineEvent(e) ==> Owed(Next(c, s, e)) == Owed(s) - 1
    ensures !IsPipelineEvent(e) && !Admits(c, s, e) ==> Owed(Next(c, s, e)) == Owed(s)
    ensures Admits(c, s, e) ==> Owed(Next(c, s, e)) == Owed(s) + 6
  {
    if IsWorkerEvent(e) {
      OwedWorkerStep(c, s, e);
    } else if IsDispatcherEvent(e) {
      OwedDispatcherStep(c, s, e);
    } else if IsHandlerEvent(e) {
      OwedHandlerStep(c, s, e);
    }
  }

  lemma OwedHandlerStep(c: Config, s: State, e: Event)
    requires IsHandlerEvent(e) && Enabled(c, s, e)
    ensures Owed(Next(c, s, e)) == Owed(s) + if Admits(c, s, e) then 6 else 0
  {
  }

  lemma OwedDispatcherStep(c: Config, s: State, e: Event)
    requires PipelineInv(s) && IsDispatcherEvent(e) && Enabled(c, s, e)
    ensures Owed(Next(c, s, e)) == Owed(s) - 1
  {
    if e.Spawn? {
      HandNotDispatched(s);
      assert s.hand.job !in s.calling;
    }
  }

  lemma OwedWorkerStep(c: Config, s: State, e: Event)
    requires Inv(c, s) && IsWorkerEvent(e) && Enabled(c, s, e)
    ensures Owed(Next(c, s, e)) == Owed(s) - 1
  {
  }

  /** The pool never runs dry: a dispatcher waiting without an idle permit waits for a running worker. */
  lemma PermitsNeverRunOut(c: Config, s: State)
    requires Reachable(c, s)
    ensures s.pool.idle + Held(s) >= c.bounds.min >= 1
    ensures s.hand.Sized? && s.pool.idle == 0 ==> Held(s) >= 1
  {
    PermitLedger(c, s);
  }

  /** No deadlock: while any step is owed, one can be taken, and no worker has to fail for it. */
  lemma Progress(c: Config, s: State) returns (e: Event)
    requires Reachable(c, s) && Owed(s) > 0
    ensures IsPipelineEvent(e) && !e.Abort? && Enabled(c, s, e)
  {
    Always(c, s);
    PermitsNeverRunOut(c, s);
    if s.releasing != {} {
      var job :| job in s.releasing;
      e := Release(job);
    } else if s.calling != {} {
      var job :| job in s.calling;
      assert job in s.accepted;
      assert JobOk(s, job);
      e := Complete(job, CallFailed("rpc error"));
    } else {
      match s.hand {
        case Empty => e := Receive;
        case Holding(_) => e := Measure;
        case Measured(_, _) => e := Reconfigure;
        case Sized(_) => e := Spawn;
      }
    }
  }

  /** The dispatcher and worker steps of a run, and whether it admits any request. */
  function PipelineSteps(es: seq<Event>): nat {
    if es == [] then 0 else One(IsPipelineEvent(es[0])) + PipelineSteps(es[1..])
  }

  predicate Quiet(c: Config, s: State, es: seq<Event>)
    requires CanRun(c, s, es)
    decreases |es|
  {
    es == [] || (!Admits(c, s, es[0]) && Quiet(c, Next(c, s, es[0]), es[1..]))
  }

  lemma {:induction false} QuietRunPaysOff(c: Config, s: State, es: seq<Event>)
    requires Inv(c, s) && CanRun(c, s, es) && Quiet(c, s, es)
    ensures PipelineSteps(es) + Owed(Run(c, s, es)) == Owed(s)
    decreases |es|
  {
    if es != [] {
      OwedStep(c, s, es[0]);
      StepKeeps(c, s, es[0]);
      QuietRunPaysOff(c, Next(c, s, es[0]), es[1..]);
    }
  }

  /** Nothing is queued, held or running, every permit is home, every accepted job was handed to a
      worker, and every waiting handler has its result: none of them needs the timeout. */
  ghost predicate Drained(c: Config, s: State) {
    && s.queue == [] && s.hand.Empty? && s.calling == {} && s.releasing == {}
    && s.pool.idle == s.pool.current + WorstExcess(s.resizes)
    && s.dispatched == s.accepted
    && forall h | 0 <= h < |s.handlers| && s.handlers[h].pc.Waiting? :: Enabled(c, s, Wake(h, 0))
        && !Enabled(c, s, Expire(h))
  }

  lemma DrainedWhenNothingOwed(c: Config, s: State)
    requires Reachable(c, s) && Owed(s) == 0
    ensures Drained(c, s)
  {
    Always(c, s);
    forall h | 0 <= h < |s.handlers| && s.handlers[h].pc.Waiting?
      ensures Enabled(c, s, Wake(h, 0)) && !Enabled(c, s, Expire(h))
    {
      assert HandlerOk(c, s, h);
      var job := Job(Stamped(s.handlers[h].call, s.handlers[h].id), h);
      assert JobOk(s, job);
    }
  }

  /** Once arrivals stop, every run takes at most the owed number of dispatcher and worker steps, and if
      it stops only when none of them can be taken, exactly that number, ending drained. */
  lemma DrainsExactly(c: Config, s: State, es: seq<Event>)
    requires Reachable(c, s) && CanRun(c, s, es) && Quiet(c, s, es)
    ensures PipelineSteps(es) <= Owed(s)
    ensures (forall e | IsPipelineEvent(e) :: !Enabled(c, Run(c, s, es), e)) ==>
              PipelineSteps(es) == Owed(s) && Drained(c, Run(c, s, es))
  {
    Always(c, s);
    QuietRunPaysOff(c, s, es);
    var t := Run(c, s, es);
    ReachRun(c, s, es);
    if forall e | IsPipelineEvent(e) :: !Enabled(c, t, e) {
      if Owed(t) > 0 {
        var e := Progress(c, t);
        assert false;
      }
      DrainedWhenNothingOwed(c, t);
    }
  }

  /** Such a run exists from every reachable state. */
  lemma {:induction false} CanDrain(c: Config, s: State) returns (es: seq<Event>)
    requires Reachable(c, s)
    ensures CanRun(c, s, es) && Quiet(c, s, es) && PipelineSteps(es) == |es| == Owed(s)
    ensures Drained(c, Run(c, s, es))
    decreases Owed(s)
  {
    if Owed(s) == 0 {
      es := [];
      DrainedWhenNothingOwed(c, s);
    } else {
      Always(c, s);
      var e := Progress(c, s);
      OwedStep(c, s, e);
      ReachNext(c, s, e);
      var rest := CanDrain(c, Next(c, s, e));
      es := [e] + rest;
      assert es[1..] == rest;
    }
  }

  // The gauge of requests in flight.

  lemma {:induction false} PipelineRunKeepsHandlers(c: Config, s: State, es: seq<Event>)
    requires CanRun(c, s, es) && PipelineSteps(es) == |es|
    ensures var t := Run(c, s, es);
            && t.counters == s.counters && |t.handlers| == |s.handlers|
            && forall h | 0 <= h < |s.handlers| :: t.handlers[h].pc == s.handlers[h].pc
    decreases |es|
  {
    if es != [] {
      hide Plan, CoreResult;
      PipelineStepsWithin(es[1..]);
      PipelineRunKeepsHandlers(c, Next(c, s, es[0]), es[1..]);
    }
  }

  lemma {:induction false} PipelineStepsWithin(es: seq<Event>)
    ensures PipelineSteps(es) <= |es|
  {
    if es != [] {
      PipelineStepsWithin(es[1..]);
    }
  }

  ghost predicate AllAtRest(s: State) { forall h | 0 <= h < |s.handlers| :: AtRest(s.handlers[h]) }

  /** The gauge drifts without bound: for every number some reachable state has that much in flight although
      the pipeline is drained and no handler is being served. */
  lemma {:induction false} GaugeDrifts(c: Config, n: nat) returns (s: State)
    ensures Reachable(c, s) && Drained(c, s) && AllAtRest(s) && s.counters.inFlight == n
  {
    if n == 0 {
      s := Init(c);
      ReachInit(c);
      DrainedWhenNothingOwed(c, s);
    } else {
      s := GaugeDrifts(c, n - 1);
      s := OneMoreGone(c, s);
      var es := CanDrain(c, s);
      PipelineRunKeepsHandlers(c, s, es);
      ReachRun(c, s, es);
      s := Run(c, s, es);
    }
  }

  /** A client that goes away while its request waits. */
  lemma OneMoreGone(c: Config, s: State) returns (t: State)
    requires Reachable(c, s) && s.queue == [] && AllAtRest(s)
    ensures Reachable(c, t) && AllAtRest(t) && t.counters.inFlight == s.counters.inFlight + 1
  {
    var h := |s.handlers|;
    t := Accept(c, s, Http(None, InferRequest("m", "i", None, None)), "id");
    t := Begin(c, t, h);
    t := Advance(c, t, Disconnect(h));
  }
}

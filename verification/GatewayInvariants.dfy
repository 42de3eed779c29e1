/** What every step of the gateway keeps. Each counter is the sum, over the handlers, of what a handler
    at its program point has contributed so far. */
module GatewayInvariants {
  import opened Summation
  import opened Messages
  import opened WorkerPool
  import opened Gateway
  import M = Metrics

  /** The rendered counters, then quantities that exist in the model only. */
  datatype Gauge =
    | Requests | InFlight | Outcomes(outcome: M.Outcome) | LatencySum | LatencyCount | Bucket(i: nat)
    | FullRefusals | ModelRefusals
    | OpenSlots      // response senders still alive
    | Live           // ... whose handler still listens
    | Orphaned       // ... whose handler has already gone
    | Unsettled      // between the two adds of begin_request, or between leaving flight and the outcome
    | Unrecorded     // between the outcome and the latency count
    | Observed       // histogram updated
    | Gone           // client disconnected
    | Expiring       // timed out, not yet in timeout_total

  predicate Rendered(k: Gauge) {
    k.Requests? || k.InFlight? || k.Outcomes? || k.LatencySum? || k.LatencyCount? || k.FullRefusals? || k.ModelRefusals?
    || (k.Bucket? && k.i < |M.LATENCY_BUCKETS_MS|)
  }

  function Reading(k: Gauge, counters: M.Counters): int
    requires Rendered(k) && |counters.histogram| == |M.LATENCY_BUCKETS_MS|
  {
    match k
    case Requests => counters.requests
    case InFlight => counters.inFlight
    case Outcomes(o) => (match o case Ok => counters.ok case Error => counters.error case Timeout => counters.timeout)
    case LatencySum => counters.latencySum
    case LatencyCount => counters.latencyCount
    case Bucket(i) => counters.histogram[i]
    case FullRefusals => counters.queueFull
    case ModelRefusals => counters.invalid
  }

  predicate Past(pc: Pc, stage: nat) { pc.Ending? && pc.stage > stage }

  function One(b: bool): nat { if b then 1 else 0 }

  function Weight(k: Gauge, handler: Handler): nat {
    var pc := handler.pc;
    match k
    case Requests => One(pc.Counted? || pc.Waiting? || pc.Ending? || pc.Disconnected?)
    case InFlight => One(pc.Waiting? || pc.Disconnected? || (pc.Ending? && pc.stage == 0))
    case Outcomes(o) => One(Past(pc, 1) && OutcomeOf(pc.received) == o)
    case LatencySum => if Past(pc, 2) then pc.latency else 0
    case LatencyCount => One(Past(pc, 3))
    case Bucket(i) => One(Past(pc, 4) && i < |M.LATENCY_BUCKETS_MS| && pc.latency <= M.LATENCY_BUCKETS_MS[i])
    case FullRefusals => One(pc == Refused(QueueFull))
    case ModelRefusals => One(pc == Refused(UnknownModel))
    case OpenSlots => One(handler.slot.Open?)
    case Live => One(handler.slot.Open? && Listening(pc))
    case Orphaned => One(handler.slot.Open? && !Listening(pc))
    case Unsettled => One(pc.Counted? || (pc.Ending? && pc.stage == 1))
    case Unrecorded => One(pc.Ending? && 2 <= pc.stage <= 3)
    case Observed => One(Past(pc, 4))
    case Gone => One(pc.Disconnected?)
    case Expiring => One(pc.Ending? && pc.stage <= 1 && pc.received.TimedOut?)
  }

  function Weigher(k: Gauge): Handler -> int { (handler: Handler) => Weight(k, handler) }

  function Total(k: Gauge, handlers: seq<Handler>): int { Sum(Weigher(k), handlers) }

  // The invariant, in four parts.

  ghost predicate CountersInv(s: State) {
    && |s.counters.histogram| == |M.LATENCY_BUCKETS_MS|
    && forall k | Rendered(k) :: Reading(k, s.counters) == Total(k, s.handlers)
  }

  /** The result is one that a core call for this request can have; which call it was is a matter of the run. */
  ghost predicate ResultFits(c: Config, handler: Handler, result: JobResult) {
    exists reply :: ReplyFits(c.protocol, reply) && result == CoreResult(Stamped(handler.call, handler.id), reply)
  }

  ghost predicate HandlerOk(c: Config, s: State, h: nat)
    requires h < |s.handlers|
  {
    var handler := s.handlers[h];
    && (handler.slot.NoJob? <==> handler.pc.Arrived? || handler.pc.Turning? || handler.pc.Refused? || handler.pc.Ready?)
    && (!handler.slot.NoJob? ==> Job(Stamped(handler.call, handler.id), h) in s.accepted)
    && ((handler.pc.Ready? || !handler.slot.NoJob?) && SuppliedId(handler.call).Some? ==>
          handler.id == SuppliedId(handler.call).value)
    && (handler.slot.Delivered? ==> ResultFits(c, handler, handler.slot.result))
    && (handler.slot.Lost? ==> s.aborts > 0)
    && (Listening(handler.pc) ==> !handler.slot.Discarded?)
    && (handler.pc.Ending? ==>
          && handler.pc.stage <= M.FINISH_STAGES
          && match handler.pc.received
             case Answered(result) => handler.slot == Delivered(result)
             case SenderGone => handler.slot == Lost
             case TimedOut =>
               (handler.slot.Open? || handler.slot.Discarded?) && handler.pc.latency == 1000 * c.timeoutSecs)
  }

  ghost predicate HandlersInv(c: Config, s: State) {
    forall h | 0 <= h < |s.handlers| :: HandlerOk(c, s, h)
  }

  /** An accepted job is still in the pipeline: queued, in the dispatcher's hand, or with a calling worker. */
  predicate InPipeline(s: State, job: Job) { job in s.queue || job in InHand(s.hand) || job in s.calling }

  ghost predicate JobOk(s: State, job: Job) {
    && job.owner < |s.handlers|
    && var handler := s.handlers[job.owner];
       && job.request == Stamped(handler.call, handler.id)
       && !handler.slot.NoJob?
       && (handler.slot.Open? <==> InPipeline(s, job))
  }

  ghost predicate DistinctOwners(jobs: seq<Job>) {
    forall i, j | 0 <= i < j < |jobs| :: jobs[i].owner != jobs[j].owner
  }

  ghost predicate PipelineInv(s: State) {
    && s.accepted == s.dispatched + InHand(s.hand) + s.queue
    && DistinctOwners(s.accepted)
    && s.calling !! s.releasing
    && (forall job | job in s.calling || job in s.releasing :: job in s.dispatched)
    && (forall job | job in s.accepted :: JobOk(s, job))
    && Total(OpenSlots, s.handlers) == |s.queue| + |InHand(s.hand)| + |s.calling|
  }

  /** The largest pool size the dispatcher can ask for: it never sees more than a full queue. */
  function Ceiling(c: Config): nat { Plan(c.bounds, c.capacity) }

  ghost predicate PoolInv(c: Config, s: State) {
    && s.pool.current == Plan(c.bounds, s.lastLen)
    && s.lastLen <= c.capacity
    && Drift(s.pool, Held(s)) == WorstExcess(s.resizes) <= s.shrinks
    && |s.queue| <= c.capacity
    && (Ceiling(c) == c.bounds.min ==> s.shrinks == 0)
    && match s.hand
       case Holding(_) => |s.queue| + 1 >= s.lastLen
       case Measured(_, len) => len + 1 >= s.lastLen && len <= |s.queue|
       case _ => |s.queue| >= s.lastLen
  }

  ghost predicate Inv(c: Config, s: State) {
    CountersInv(s) && HandlersInv(c, s) && PipelineInv(s) && PoolInv(c, s)
  }

  lemma InitHolds(c: Config)
    ensures Inv(c, Init(c))
  {
    var s := Init(c);
    assert CountersInv(s) by {
      forall k | Rendered(k)
        ensures Reading(k, s.counters) == Total(k, s.handlers)
      {
        assert forall i | 0 <= i < |M.LATENCY_BUCKETS_MS| :: M.ZERO.histogram[i] == 0;
      }
    }
    assert HandlersInv(c, s);
    assert PipelineInv(s);
    assert PoolInv(c, s) by {
      PlanShape(c.bounds, 0, 0);
    }
  }

  // Counters.

  lemma HandlerStepMoves(c: Config, handler: Handler, e: Event, room: bool, counters: M.Counters, k: Gauge)
    requires IsHandlerEvent(e) && HandlerEnabled(handler, e) && Rendered(k)
    requires |counters.histogram| == |M.LATENCY_BUCKETS_MS|
    ensures |CountersNext(counters, handler, e).histogram| == |M.LATENCY_BUCKETS_MS|
    ensures Reading(k, CountersNext(counters, handler, e)) - Reading(k, counters)
         == Weight(k, HandlerNext(c, handler, e, room)) - Weight(k, handler)
  {
  }

  lemma HandlerStepKeepsCounters(c: Config, s: State, e: Event)
    requires CountersInv(s) && IsHandlerEvent(e) && Enabled(c, s, e)
    ensures CountersInv(Next(c, s, e))
  {
    var t := Next(c, s, e);
    var was, room := s.handlers[e.h], |s.queue| < c.capacity;
    var became := HandlerNext(c, was, e, room);
    assert t.handlers == s.handlers[e.h := became] && t.counters == CountersNext(s.counters, was, e);
    HandlerStepMoves(c, was, e, room, s.counters, Requests);
    forall k | Rendered(k)
      ensures Reading(k, t.counters) == Total(k, t.handlers)
    {
      HandlerStepMoves(c, was, e, room, s.counters, k);
      SumUpdate(Weigher(k), s.handlers, e.h, became);
    }
  }

  /** Arrivals and worker steps leave every handler's contribution to the rendered counters as it was. */
  lemma OtherStepKeepsTotal(c: Config, s: State, e: Event, k: Gauge)
    requires !IsHandlerEvent(e) && Enabled(c, s, e) && Rendered(k)
    ensures Total(k, Next(c, s, e).handlers) == Total(k, s.handlers)
  {
    hide Plan, Reconfigured, SlotAfterWorker, Sum;
    if e.Arrive? {
      SumAppend(Weigher(k), s.handlers, Handler(e.call, "", Arrived, NoJob));
    } else if e.Complete? || e.Abort? {
      var was := s.handlers[e.job.owner];
      SumUpdate(Weigher(k), s.handlers, e.job.owner, was.(slot := SlotAfterWorker(was, e)));
    }
  }

  lemma StepKeepsCounters(c: Config, s: State, e: Event)
    requires CountersInv(s) && Enabled(c, s, e)
    ensures CountersInv(Next(c, s, e))
  {
    if IsHandlerEvent(e) {
      HandlerStepKeepsCounters(c, s, e);
    } else {
      forall k | Rendered(k)
        ensures Total(k, Next(c, s, e).handlers) == Total(k, s.handlers)
      {
        OtherStepKeepsTotal(c, s, e, k);
      }
    }
  }

  // Handlers.

  /** Steps only append to `accepted` and never lower `aborts`, which is all a handler relies on. */
  lemma HandlerOkFrame(c: Config, s: State, t: State, h: nat)
    requires h < |s.handlers| && h < |t.handlers| && s.handlers[h] == t.handlers[h]
    requires HandlerOk(c, s, h) && s.accepted <= t.accepted && s.aborts <= t.aborts
    ensures HandlerOk(c, t, h)
  {
    assert forall job | job in s.accepted :: job in t.accepted;
  }

  lemma HandlerStepKeepsHandler(c: Config, s: State, e: Event)
    requires HandlersInv(c, s) && IsHandlerEvent(e) && Enabled(c, s, e)
    ensures HandlerOk(c, Next(c, s, e), e.h)
  {
    assert HandlerOk(c, s, e.h);
    var t := Next(c, s, e);
    var was := s.handlers[e.h];
    if e.TrySend? && |s.queue| < c.capacity {
      assert t.accepted[|s.accepted|] == Job(Stamped(was.call, was.id), e.h);
    } else {
      assert t.accepted == s.accepted;
    }
  }

  lemma StepKeepsHandlers(c: Config, s: State, e: Event)
    requires HandlersInv(c, s) && PipelineInv(s) && Enabled(c, s, e)
    ensures HandlersInv(c, Next(c, s, e))
  {
    var t := Next(c, s, e);
    forall h | 0 <= h < |t.handlers|
      ensures HandlerOk(c, t, h)
    {
      if h < |s.handlers| && t.handlers[h] == s.handlers[h] {
        HandlerOkFrame(c, s, t, h);
      } else if IsHandlerEvent(e) {
        HandlerStepKeepsHandler(c, s, e);
      } else if IsWorkerEvent(e) {
        WorkerStepKeepsHandler(c, s, e);
      }
    }
  }

  lemma WorkerStepKeepsHandler(c: Config, s: State, e: Event)
    requires HandlersInv(c, s) && PipelineInv(s) && (e.Complete? || e.Abort?) && Enabled(c, s, e)
    ensures HandlerOk(c, Next(c, s, e), e.job.owner)
  {
    assert HandlerOk(c, s, e.job.owner);
    assert e.job in s.accepted;
    assert JobOk(s, e.job);
  }

  // The pipeline.

  lemma StepKeepsPipeline(c: Config, s: State, e: Event)
    requires Inv(c, s) && Enabled(c, s, e)
    ensures PipelineInv(Next(c, s, e))
  {
    if IsHandlerEvent(e) {
      HandlerStepKeepsPipeline(c, s, e);
    } else if IsDispatcherEvent(e) {
      DispatcherStepKeepsPipeline(c, s, e);
    } else if IsWorkerEvent(e) {
      WorkerStepKeepsPipeline(c, s, e);
    } else {
      SumAppend(Weigher(OpenSlots), s.handlers, Handler(e.call, "", Arrived, NoJob));
      assert forall job | job in s.accepted :: JobOk(s, job);
    }
  }

  lemma HandlerStepKeepsPipeline(c: Config, s: State, e: Event)
    requires Inv(c, s) && IsHandlerEvent(e) && Enabled(c, s, e)
    ensures PipelineInv(Next(c, s, e))
  {
    hide CountersNext, CountersInv, PoolInv, CoreResult, Stamped, Sum;
    var t := Next(c, s, e);
    SumUpdate(Weigher(OpenSlots), s.handlers, e.h, t.handlers[e.h]);
    assert HandlerOk(c, s, e.h);
    if e.TrySend? && |s.queue| < c.capacity {
      AcceptKeepsPipeline(c, s, e);
    } else {
      forall job | job in t.accepted
        ensures JobOk(t, job)
      {
        assert JobOk(s, job);
        assert InPipeline(s, job) <==> InPipeline(t, job);
      }
    }
  }

  lemma AcceptKeepsPipeline(c: Config, s: State, e: Event)
    requires Inv(c, s) && e.TrySend? && Enabled(c, s, e) && |s.queue| < c.capacity
    requires Total(OpenSlots, Next(c, s, e).handlers) == Total(OpenSlots, s.handlers) + 1
    ensures PipelineInv(Next(c, s, e))
  {
    hide CountersInv, CountersNext, PoolInv, Sum, Stamped;
    var t := Next(c, s, e);
    var was := s.handlers[e.h];
    var job := Job(Stamped(was.call, was.id), e.h);
    assert HandlerOk(c, s, e.h);
    forall prior | prior in s.accepted
      ensures JobOk(s, prior) && prior.owner != e.h && JobOk(t, prior)
    {
      assert JobOk(s, prior);
      assert forall x :: x in t.queue <==> x in s.queue || x == job;
    }
    assert t.accepted == s.dispatched + InHand(s.hand) + (s.queue + [job]);
    assert t.queue[|s.queue|] == job;
    assert JobOk(t, job);
    assert DistinctOwners(t.accepted) by {
      assert forall i | 0 <= i < |s.accepted| :: s.accepted[i] in s.accepted;
    }
  }

  lemma DispatcherStepKeepsPipeline(c: Config, s: State, e: Event)
    requires Inv(c, s) && IsDispatcherEvent(e) && Enabled(c, s, e)
    ensures PipelineInv(Next(c, s, e))
  {
    hide CountersInv, HandlersInv, PoolInv, Total, Plan, Reconfigured, Stamped, JobOk, DistinctOwners;
    var t := Next(c, s, e);
    if e.Receive? {
      assert s.queue == [s.queue[0]] + t.queue;
      assert t.accepted == t.dispatched + InHand(t.hand) + t.queue;
    } else if e.Spawn? {
      assert InHand(s.hand) == [s.hand.job];
      assert s.dispatched + [s.hand.job] + s.queue == t.dispatched + [] + t.queue;
      HandNotDispatched(s);
    }
    forall job | job in t.accepted
      ensures JobOk(t, job)
    {
      JobStaysOk(s, t, job);
    }
  }

  lemma JobStaysOk(s: State, t: State, job: Job)
    requires JobOk(s, job) && t.handlers == s.handlers && (InPipeline(s, job) <==> InPipeline(t, job))
    ensures JobOk(t, job)
  {
  }

  lemma WorkerStepKeepsPipeline(c: Config, s: State, e: Event)
    requires Inv(c, s) && IsWorkerEvent(e) && Enabled(c, s, e)
    ensures PipelineInv(Next(c, s, e))
  {
    if e.Release? {
      var t := Next(c, s, e);
      forall job | job in t.accepted
        ensures JobOk(t, job)
      {
        assert JobOk(s, job);
        assert InPipeline(s, job) <==> InPipeline(t, job);
      }
    } else {
      AnswerKeepsPipeline(c, s, e);
    }
  }

  lemma AnswerKeepsPipeline(c: Config, s: State, e: Event)
    requires Inv(c, s) && (e.Complete? || e.Abort?) && Enabled(c, s, e)
    ensures PipelineInv(Next(c, s, e))
  {
    assert e.job in s.accepted;
    assert JobOk(s, e.job);
    var was := s.handlers[e.job.owner];
    SumUpdate(Weigher(OpenSlots), s.handlers, e.job.owner, was.(slot := SlotAfterWorker(was, e)));
    assert |s.calling - {e.job}| == |s.calling| - 1;
    DispatchedElsewhereNowhere(s, e.job);
    forall job | job in s.accepted
      ensures JobOk(Next(c, s, e), job)
    {
      AnswerKeepsJob(c, s, e, job);
    }
  }

  lemma AnswerKeepsJob(c: Config, s: State, e: Event, job: Job)
    requires Inv(c, s) && (e.Complete? || e.Abort?) && Enabled(c, s, e) && job in s.accepted
    requires e.job in s.accepted && e.job !in s.queue && e.job !in InHand(s.hand)
    ensures JobOk(Next(c, s, e), job)
  {
    hide CountersInv, HandlersInv, PoolInv, Total, CoreResult, Stamped;
    assert JobOk(s, job) && JobOk(s, e.job);
    if job != e.job {
      assert job.owner != e.job.owner;
    }
  }

  /** A dispatched job is no longer queued nor in the dispatcher's hand. */
  lemma DispatchedElsewhereNowhere(s: State, job: Job)
    requires PipelineInv(s) && job in s.dispatched
    ensures job !in s.queue && job !in InHand(s.hand)
  {
    var i :| 0 <= i < |s.dispatched| && s.dispatched[i] == job;
    assert s.accepted[i] == job;
    var rest := InHand(s.hand) + s.queue;
    assert s.accepted == s.dispatched + rest;
    forall j | 0 <= j < |rest|
      ensures rest[j] != job
    {
      assert s.accepted[|s.dispatched| + j] == rest[j];
    }
    assert job !in rest;
  }

  lemma HandNotDispatched(s: State)
    requires PipelineInv(s) && !s.hand.Empty?
    ensures s.hand.job !in s.dispatched
  {
    var k := |s.dispatched|;
    assert s.accepted[k] == s.hand.job;
    forall i | 0 <= i < k
      ensures s.dispatched[i] != s.hand.job
    {
      assert s.accepted[i] == s.dispatched[i];
    }
  }

  // The pool.

  lemma StepKeepsPool(c: Config, s: State, e: Event)
    requires PipelineInv(s) && PoolInv(c, s) && Enabled(c, s, e)
    ensures PoolInv(c, Next(c, s, e))
  {
    if e.Reconfigure? {
      ReconfigureKeepsPool(c, s);
    } else if e.Spawn? {
      HandNotDispatched(s);
      assert s.hand.job !in s.calling;
    } else if IsWorkerEvent(e) {
      WorkerStepKeepsPool(c, s, e);
    }
  }

  lemma WorkerStepKeepsPool(c: Config, s: State, e: Event)
    requires PipelineInv(s) && PoolInv(c, s) && IsWorkerEvent(e) && Enabled(c, s, e)
    ensures PoolInv(c, Next(c, s, e))
  {
    hide Plan, WorstExcess, Enabled, Next, JobOk, DistinctOwners, Total;
    WorkerStepKeepsPermits(c, s, e);
  }

  /** A worker answers with its permit in hand, and returns it when it is done. */
  lemma WorkerStepKeepsPermits(c: Config, s: State, e: Event)
    requires s.calling !! s.releasing && IsWorkerEvent(e) && Enabled(c, s, e)
    ensures var t := Next(c, s, e);
            && t.pool.idle + Held(t) == s.pool.idle + Held(s) && t.pool.current == s.pool.current
            && t.queue == s.queue && t.hand == s.hand
            && t.resizes == s.resizes && t.shrinks == s.shrinks && t.lastLen == s.lastLen
  {
    hide SlotAfterWorker;
    if e.Release? {
      assert |s.releasing - {e.job}| == |s.releasing| - 1;
    } else {
      assert |s.calling - {e.job}| == |s.calling| - 1 && |s.releasing + {e.job}| == |s.releasing| + 1;
    }
  }

  lemma ReconfigureKeepsPool(c: Config, s: State)
    requires PoolInv(c, s) && Enabled(c, s, Reconfigure)
    ensures PoolInv(c, Next(c, s, Reconfigure))
  {
    var t, desired := Next(c, s, Reconfigure), Plan(c.bounds, s.hand.len);
    ReconfigureLedger(s.pool, Held(s), desired);
    assert t.resizes[..|t.resizes| - 1] == s.resizes;
    PlanShape(c.bounds, s.hand.len, c.capacity);
    if desired < s.pool.current {
      PlanShape(c.bounds, s.hand.len, s.lastLen);
    }
  }

  lemma StepKeeps(c: Config, s: State, e: Event)
    requires Inv(c, s) && Enabled(c, s, e)
    ensures Inv(c, Next(c, s, e))
  {
    StepKeepsCounters(c, s, e);
    StepKeepsHandlers(c, s, e);
    StepKeepsPipeline(c, s, e);
    StepKeepsPool(c, s, e);
  }

  lemma {:induction false} RunKeeps(c: Config, s: State, es: seq<Event>)
    requires Inv(c, s) && CanRun(c, s, es)
    ensures Inv(c, Run(c, s, es))
    decreases |es|
  {
    if es != [] {
      StepKeeps(c, s, es[0]);
      RunKeeps(c, Next(c, s, es[0]), es[1..]);
    }
  }

  // Reachable states.

  ghost predicate Reachable(c: Config, s: State) {
    exists es :: CanRun(c, Init(c), es) && Run(c, Init(c), es) == s
  }

  /** The invariant holds in every reachable state. */
  lemma Always(c: Config, s: State)
    requires Reachable(c, s)
    ensures Inv(c, s)
  {
    var es :| CanRun(c, Init(c), es) && Run(c, Init(c), es) == s;
    InitHolds(c);
    RunKeeps(c, Init(c), es);
  }

  lemma ReachInit(c: Config)
    ensures Reachable(c, Init(c))
  {
    assert CanRun(c, Init(c), []) && Run(c, Init(c), []) == Init(c);
  }

  lemma ReachRun(c: Config, s: State, fs: seq<Event>)
    requires Reachable(c, s) && CanRun(c, s, fs)
    ensures Reachable(c, Run(c, s, fs))
  {
    var es :| CanRun(c, Init(c), es) && Run(c, Init(c), es) == s;
    RunConcat(c, Init(c), es, fs);
  }

  lemma ReachNext(c: Config, s: State, e: Event)
    requires Reachable(c, s) && Enabled(c, s, e)
    ensures Reachable(c, Next(c, s, e))
  {
    assert CanRun(c, Next(c, s, e), []);
    assert CanRun(c, s, [e]) && Run(c, s, [e]) == Next(c, s, e);
    ReachRun(c, s, [e]);
  }
}

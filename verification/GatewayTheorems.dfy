/** Properties of every reachable state, and of every run, of the gateway. */
module GatewayTheorems {
  import opened Wrappers
  import opened Summation
  import opened Messages
  import opened WorkerPool
  import opened Gateway
  import opened GatewayInvariants
  import opened Scenarios
  import M = Metrics

  // Jobs.

  /** Every accepted job is in exactly one of queue, dispatcher, calling worker, answered; jobs are
      handed to workers in acceptance order and at most once; a job's channel is open exactly while the
      job is in the pipeline. */
  lemma JobConservation(c: Config, s: State)
    requires Reachable(c, s)
    ensures && s.accepted == s.dispatched + InHand(s.hand) + s.queue
            && DistinctOwners(s.accepted)
            && forall job | job in s.accepted ::
                 && One(job in s.queue) + One(job in InHand(s.hand)) + One(job in s.calling)
                    + One(job in s.dispatched && job !in s.calling) == 1
                 && job.owner < |s.handlers|
                 && (s.handlers[job.owner].slot.Open? <==> !(job in s.dispatched && job !in s.calling))
  {
    Always(c, s);
    forall job | job in s.accepted
      ensures One(job in s.queue) + One(job in InHand(s.hand)) + One(job in s.calling)
              + One(job in s.dispatched && job !in s.calling) == 1
      ensures job.owner < |s.handlers|
      ensures s.handlers[job.owner].slot.Open? <==> !(job in s.dispatched && job !in s.calling)
    {
      assert JobOk(s, job);
      if job in s.dispatched {
        DispatchedElsewhereNowhere(s, job);
      } else {
        HandOrQueue(s, job);
      }
    }
  }

  lemma HandOrQueue(s: State, job: Job)
    requires PipelineInv(s) && job in s.accepted && job !in s.dispatched
    ensures job in InHand(s.hand) <==> job !in s.queue
  {
    var k := |s.dispatched|;
    if !s.hand.Empty? {
      assert s.accepted[k] == s.hand.job;
      forall i | 0 <= i < |s.queue|
        ensures s.queue[i] != s.hand.job
      {
        assert s.accepted[k + 1 + i] == s.queue[i];
      }
    }
  }

  predicate Settled(slot: Slot) { !slot.NoJob? && !slot.Open? }

  /** At most one result is delivered: once a channel is used or closed it stays as it is, and a
      handler's request and, once resolved, its id never change. */
  lemma {:induction false} OneResultPerHandler(c: Config, s: State, es: seq<Event>, h: nat)
    requires Inv(c, s) && CanRun(c, s, es) && h < |s.handlers|
    ensures var t := Run(c, s, es);
            && h < |t.handlers|
            && t.handlers[h].call == s.handlers[h].call
            && (Settled(s.handlers[h].slot) ==> t.handlers[h].slot == s.handlers[h].slot)
            && (!s.handlers[h].slot.NoJob? ==> t.handlers[h].id == s.handlers[h].id)
    decreases |es|
  {
    if es != [] {
      StepKeeps(c, s, es[0]);
      SlotStep(c, s, es[0], h);
      OneResultPerHandler(c, Next(c, s, es[0]), es[1..], h);
    }
  }

  lemma SlotStep(c: Config, s: State, e: Event, h: nat)
    requires Inv(c, s) && Enabled(c, s, e) && h < |s.handlers|
    ensures var t := Next(c, s, e);
            && h < |t.handlers|
            && t.handlers[h].call == s.handlers[h].call
            && (Settled(s.handlers[h].slot) ==> t.handlers[h].slot == s.handlers[h].slot)
            && (!s.handlers[h].slot.NoJob? ==>
                  && t.handlers[h].id == s.handlers[h].id
                  && !t.handlers[h].slot.NoJob?)
  {
    hide CountersNext, CountersInv, PoolInv, Plan, Reconfigured, CoreResult, Stamped, Total, ResultFits, DistinctOwners;
    assert HandlerOk(c, s, h);
    if e.Complete? || e.Abort? {
      assert e.job in s.accepted;
      assert JobOk(s, e.job);
    } else if IsHandlerEvent(e) && e.h == h {
      assert Next(c, s, e).handlers[h] == HandlerNext(c, s.handlers[h], e, |s.queue| < c.capacity);
    }
  }

  /** A worker's answer on the channel of handler `h`. */
  predicate Answers(e: Event, h: nat) { (e.Complete? || e.Abort?) && e.job.owner == h }

  /** The channel holds what this worker step says about the handler's own job. */
  ghost predicate SettledBy(c: Config, handler: Handler, h: nat, e: Event) {
    && Answers(e, h) && e.job == Job(Stamped(handler.call, handler.id), h)
    && match handler.slot
       case Delivered(result) =>
         e.Complete? && ReplyFits(c.protocol, e.reply) && result == CoreResult(e.job.request, e.reply)
       case Lost => e.Abort?
       case _ => true
  }

  lemma {:induction false} SilentOnceSettled(c: Config, s: State, es: seq<Event>, h: nat)
    requires Inv(c, s) && CanRun(c, s, es) && h < |s.handlers| && Settled(s.handlers[h].slot)
    ensures forall i | 0 <= i < |es| :: !Answers(es[i], h)
    decreases |es|
  {
    if es != [] {
      if Answers(es[0], h) {
        AnswerSettles(c, s, es[0]);
      }
      StepKeeps(c, s, es[0]);
      SlotStep(c, s, es[0], h);
      SilentOnceSettled(c, Next(c, s, es[0]), es[1..], h);
      assert forall i | 1 <= i < |es| :: es[i] == es[1..][i - 1];
    }
  }

  /** An answer settles the open channel of the job's own handler. */
  lemma AnswerSettles(c: Config, s: State, e: Event)
    requires Inv(c, s) && Enabled(c, s, e) && (e.Complete? || e.Abort?)
    ensures var h, t := e.job.owner, Next(c, s, e);
            && h < |s.handlers| && s.handlers[h].slot.Open?
            && h < |t.handlers| && SettledBy(c, t.handlers[h], h, e) && Settled(t.handlers[h].slot)
  {
    hide CountersInv, HandlersInv, PoolInv, Plan, CoreResult, Stamped;
    assert e.job in s.accepted;
    assert JobOk(s, e.job);
  }

  /** Nothing else settles a channel. */
  lemma OnlyAnswersSettle(c: Config, s: State, e: Event, h: nat)
    requires Enabled(c, s, e) && !Answers(e, h) && h < |Next(c, s, e).handlers|
    requires h < |s.handlers| ==> !Settled(s.handlers[h].slot)
    ensures !Settled(Next(c, s, e).handlers[h].slot)
  {
    hide CountersNext, Plan, CoreResult, Stamped;
  }

  lemma SameSettlement(c: Config, before: Handler, after: Handler, h: nat, e: Event)
    requires SettledBy(c, before, h, e)
    requires after.call == before.call && after.id == before.id && after.slot == before.slot
    ensures SettledBy(c, after, h, e)
  {
  }

  /** Over any run, a channel that gets settled is settled by exactly one step, of the worker that ran the
      handler's own job. */
  lemma {:induction false} SettledByOwnJob(c: Config, s: State, es: seq<Event>, h: nat) returns (i: nat)
    requires Inv(c, s) && CanRun(c, s, es) && (h < |s.handlers| ==> !Settled(s.handlers[h].slot))
    requires var t := Run(c, s, es); h < |t.handlers| && Settled(t.handlers[h].slot)
    ensures i < |es| && SettledBy(c, Run(c, s, es).handlers[h], h, es[i])
    ensures forall j | 0 <= j < |es| && Answers(es[j], h) :: j == i
    decreases |es|
  {
    var u := Next(c, s, es[0]);
    hide Next, Enabled, Inv, SettledBy;
    StepKeeps(c, s, es[0]);
    assert forall j | 1 <= j < |es| :: es[j] == es[1..][j - 1];
    if Answers(es[0], h) {
      i := 0;
      AnswerSettles(c, s, es[0]);
      OneResultPerHandler(c, u, es[1..], h);
      SilentOnceSettled(c, u, es[1..], h);
      SameSettlement(c, u.handlers[h], Run(c, s, es).handlers[h], h, es[0]);
    } else {
      if h < |u.handlers| {
        OnlyAnswersSettle(c, s, es[0], h);
      }
      var later := SettledByOwnJob(c, u, es[1..], h);
      i := later + 1;
    }
  }

  /** Event `e` is the only answer of the run on the channel of `h`. */
  ghost predicate OnlyAnswer(es: seq<Event>, h: nat, e: Event) {
    exists i :: 0 <= i < |es| && es[i] == e && forall j | 0 <= j < |es| && Answers(es[j], h) :: j == i
  }

  /** What a client may conclude about a core call from its result, and the other way round. A failed call
      is a failure with its message and nothing else is; a chat completion is answered with its first choice,
      completion tokens before total tokens, generation time before total time, and zero for what is absent. */
  ghost predicate Reports(request: InferRequest, reply: CoreReply, result: JobResult) {
    match reply
    case CallFailed(message) => result == Failure(message)
    case InferBody(response) => result == Success(response)
    case ChatBody(chat) =>
      result.Success?
      && var r := result.response;
         && request.requestId == Some(r.requestId) && r.model == request.model && r.status == "ok"
         && (if chat.contents == [] then r.output == "" else r.output == chat.contents[0])
         && (match chat.usage
             case Some(ChatUsage(Some(completion), _)) => r.tokens == completion
             case Some(ChatUsage(None, Some(total))) => r.tokens == total
             case _ => r.tokens == 0)
         && (match chat.timings
             case Some(ChatTimings(Some(predicted), _)) => r.latencyMs == predicted
             case Some(ChatTimings(None, Some(total))) => r.latencyMs == total
             case _ => r.latencyMs == 0)
  }

  lemma CoreResultReports(request: InferRequest, reply: CoreReply)
    requires request.requestId.Some?
    ensures Reports(request, reply, CoreResult(request, reply))
  {
  }

  /** The result a handler ends with is what the one core call made for its own job came back with, and
      "worker task cancelled" means that the one worker of its own job died; no other worker answers it. */
  lemma ResultsReachTheirOwner(c: Config, es: seq<Event>, h: nat)
    requires CanRun(c, Init(c), es)
    requires h < |Run(c, Init(c), es).handlers| && Run(c, Init(c), es).handlers[h].pc.Ending?
    ensures var handler := Run(c, Init(c), es).handlers[h];
            var job := Job(Stamped(handler.call, handler.id), h);
            match handler.pc.received
            case Answered(result) =>
              exists reply :: ReplyFits(c.protocol, reply) && OnlyAnswer(es, h, Complete(job, reply))
                              && Reports(job.request, reply, result)
            case SenderGone => OnlyAnswer(es, h, Abort(job))
            case TimedOut => true
  {
    var t := Run(c, Init(c), es);
    InitHolds(c);
    RunKeeps(c, Init(c), es);
    assert HandlerOk(c, t, h);
    if !t.handlers[h].pc.received.TimedOut? {
      var i := SettledByOwnJob(c, Init(c), es, h);
      assert OnlyAnswer(es, h, es[i]);
      if es[i].Complete? {
        CoreResultReports(es[i].job.request, es[i].reply);
      }
    }
  }

  // Permits.

  /** The permit ledger of every run: permits exceed the pool size by exactly the worst excess of workers
      any resize found above its target; the cap is intact exactly when no resize found one; each shrink
      adds at most one. Occupancy follows. */
  lemma PermitLedger(c: Config, s: State)
    requires Reachable(c, s)
    ensures && s.pool.idle + Held(s) == s.pool.current + WorstExcess(s.resizes)
            && c.bounds.min <= s.pool.current <= Ceiling(c) <= c.bounds.max
            && (Drift(s.pool, Held(s)) == 0 <==> forall r | r in s.resizes :: r.held <= r.desired)
            && Held(s) <= Ceiling(c) + s.shrinks
            && |s.queue| + |InHand(s.hand)| + |s.calling| <= c.capacity + 1 + Held(s)
  {
    Always(c, s);
    PlanShape(c.bounds, s.lastLen, c.capacity);
    WorstExcessIsAttained(s.resizes);
  }

  // Counters.

  lemma {:induction false} CounterSums(handlers: seq<Handler>)
    ensures Total(Requests, handlers)
         == Total(InFlight, handlers) + Total(Outcomes(M.Ok), handlers) + Total(Outcomes(M.Error), handlers)
            + Total(Outcomes(M.Timeout), handlers) + Total(Unsettled, handlers)
    ensures Total(Outcomes(M.Ok), handlers) + Total(Outcomes(M.Error), handlers) + Total(Outcomes(M.Timeout), handlers)
         == Total(LatencyCount, handlers) + Total(Unrecorded, handlers)
  {
    if handlers != [] {
      CounterSums(handlers[..|handlers| - 1]);
    }
  }

  lemma GaugesNonNegative(k: Gauge, handlers: seq<Handler>)
    ensures 0 <= Total(k, handlers)
    ensures forall h | 0 <= h < |handlers| :: Weight(k, handlers[h]) <= Total(k, handlers)
  {
    SumNonNegative(Weigher(k), handlers);
    assert forall h | 0 <= h < |handlers| :: Weigher(k)(handlers[h]) == Weight(k, handlers[h]);
  }

  lemma BucketsNested(handlers: seq<Handler>, i: nat, j: nat)
    requires i <= j < |M.LATENCY_BUCKETS_MS|
    ensures Total(Bucket(i), handlers) <= Total(Bucket(j), handlers) <= Total(Observed, handlers)
        <= Total(LatencyCount, handlers)
  {
    SumBounds(Weigher(Bucket(i)), Weigher(Bucket(j)), handlers);
    SumBounds(Weigher(Bucket(j)), Weigher(Observed), handlers);
    SumBounds(Weigher(Observed), Weigher(LatencyCount), handlers);
  }

  /** No handler is between two atomic operations of begin_request or finish_request. */
  predicate Quiescent(s: State) {
    forall h | 0 <= h < |s.handlers| ::
      Weight(Unsettled, s.handlers[h]) == 0 && Weight(Unrecorded, s.handlers[h]) == 0
      && !(s.handlers[h].pc.Ending? && s.handlers[h].pc.stage == 4)
  }

  /** The counter chain under every interleaving, with the exact slack of each link; the slack is gone
      whenever no call is mid-way; buckets are nested and below the count; in_flight is never negative. */
  lemma CounterChain(c: Config, s: State)
    requires Reachable(c, s)
    ensures var m := s.counters;
            && m.requests == m.inFlight + m.ok + m.error + m.timeout + Total(Unsettled, s.handlers)
            && m.ok + m.error + m.timeout == m.latencyCount + Total(Unrecorded, s.handlers)
            && Total(Unsettled, s.handlers) >= 0 && Total(Unrecorded, s.handlers) >= 0
            && m.inFlight >= 0
            && |m.histogram| == |M.LATENCY_BUCKETS_MS|
            && (forall i, j | 0 <= i <= j < |m.histogram| :: m.histogram[i] <= m.histogram[j] <= m.latencyCount)
            && (Quiescent(s) ==>
                  m.requests == m.inFlight + m.ok + m.error + m.timeout && m.ok + m.error + m.timeout == m.latencyCount)
  {
    Always(c, s);
    CountersAreSums(s);
    CounterSums(s.handlers);
    GaugesNonNegative(Unsettled, s.handlers);
    GaugesNonNegative(Unrecorded, s.handlers);
    GaugesNonNegative(InFlight, s.handlers);
    forall i, j | 0 <= i <= j < |s.counters.histogram|
      ensures s.counters.histogram[i] <= s.counters.histogram[j] <= s.counters.latencyCount
    {
      BucketsNested(s.handlers, i, j);
    }
    if Quiescent(s) {
      SumZero(Weigher(Unsettled), s.handlers);
      SumZero(Weigher(Unrecorded), s.handlers);
    }
  }

  lemma CountersAreSums(s: State)
    requires CountersInv(s)
    ensures s.counters.requests == Total(Requests, s.handlers) && s.counters.inFlight == Total(InFlight, s.handlers)
    ensures s.counters.ok == Total(Outcomes(M.Ok), s.handlers)
        && s.counters.error == Total(Outcomes(M.Error), s.handlers)
    ensures s.counters.timeout == Total(Outcomes(M.Timeout), s.handlers)
    ensures s.counters.latencySum == Total(LatencySum, s.handlers)
        && s.counters.latencyCount == Total(LatencyCount, s.handlers)
    ensures s.counters.queueFull == Total(FullRefusals, s.handlers)
        && s.counters.invalid == Total(ModelRefusals, s.handlers)
    ensures forall i | 0 <= i < |s.counters.histogram| :: s.counters.histogram[i] == Total(Bucket(i), s.handlers)
  {
  }

  /** The decrement of in_flight always finds a positive value. */
  lemma InFlightNeverUnderflows(c: Config, s: State, h: nat)
    requires Reachable(c, s) && Enabled(c, s, Finish(h)) && s.handlers[h].pc.stage == 0
    ensures s.counters.inFlight >= 1
  {
    Always(c, s);
    CountersAreSums(s);
    GaugesNonNegative(InFlight, s.handlers);
    assert Weight(InFlight, s.handlers[h]) == 1;
  }

  /** The handler neither waits nor still owes its decrement: it was refused, has not been accepted yet,
      left the flight, or was dropped with its client. */
  predicate AtRest(handler: Handler) { !handler.pc.Waiting? && !(handler.pc.Ending? && handler.pc.stage == 0) }

  /** The gauge of requests being processed counts every disconnected client for ever: with nobody in
      flight it equals their number, so it returns to zero exactly when no client ever disconnected. */
  lemma DisconnectedClientsStayInFlight(c: Config, s: State)
    requires Reachable(c, s) && forall h | 0 <= h < |s.handlers| :: AtRest(s.handlers[h])
    ensures s.counters.inFlight == Total(Gone, s.handlers)
    ensures s.counters.inFlight == 0 <==> forall h | 0 <= h < |s.handlers| :: !s.handlers[h].pc.Disconnected?
  {
    Always(c, s);
    CountersAreSums(s);
    assert forall h | 0 <= h < |s.handlers| :: AtRest(s.handlers[h]);
    SumBounds(Weigher(InFlight), Weigher(Gone), s.handlers);
    SumBounds(Weigher(Gone), Weigher(InFlight), s.handlers);
    GaugesNonNegative(Gone, s.handlers);
    if forall h | 0 <= h < |s.handlers| :: !s.handlers[h].pc.Disconnected? {
      SumZero(Weigher(Gone), s.handlers);
    } else {
      var h :| 0 <= h < |s.handlers| && s.handlers[h].pc.Disconnected?;
      assert Weight(Gone, s.handlers[h]) == 1;
    }
  }

  lemma {:induction false} DisconnectedForGood(c: Config, s: State, es: seq<Event>, h: nat)
    requires CanRun(c, s, es) && h < |s.handlers| && s.handlers[h].pc.Disconnected?
    ensures h < |Run(c, s, es).handlers| && Run(c, s, es).handlers[h].pc.Disconnected?
    decreases |es|
  {
    if es != [] {
      hide CountersNext, Plan, CoreResult;
      DisconnectedForGood(c, Next(c, s, es[0]), es[1..], h);
    }
  }

  /** After one disconnected client the gauge never returns to zero, whatever happens next. */
  lemma NeverBackToZero(c: Config, s: State, es: seq<Event>, h: nat)
    requires Reachable(c, s) && h < |s.handlers| && s.handlers[h].pc.Disconnected? && CanRun(c, s, es)
    ensures Run(c, s, es).counters.inFlight >= 1
  {
    var t := Run(c, s, es);
    ReachRun(c, s, es);
    Always(c, t);
    CountersAreSums(t);
    DisconnectedForGood(c, s, es, h);
    GaugesNonNegative(InFlight, t.handlers);
    assert Weight(InFlight, t.handlers[h]) == 1;
  }

  // Scraping.

  /** The histogram updates of a run. */
  function Updates(c: Config, s: State, es: seq<Event>): nat
    requires CanRun(c, s, es)
    decreases |es|
  {
    if es == [] then 0
    else
      One(es[0].Finish? && s.handlers[es[0].h].pc.stage == 4) + Updates(c, Next(c, s, es[0]), es[1..])
  }

  lemma StepObserves(c: Config, s: State, e: Event)
    requires Enabled(c, s, e)
    ensures Total(Observed, Next(c, s, e).handlers)
         == Total(Observed, s.handlers) + One(e.Finish? && s.handlers[e.h].pc.stage == 4)
  {
    hide CountersNext, SlotAfterWorker, Plan, Reconfigured, Sum;
    if IsHandlerEvent(e) {
      var was := s.handlers[e.h];
      SumUpdate(Weigher(Observed), s.handlers, e.h, HandlerNext(c, was, e, |s.queue| < c.capacity));
    } else if e.Arrive? {
      SumAppend(Weigher(Observed), s.handlers, Handler(e.call, "", Arrived, NoJob));
    } else if e.Complete? || e.Abort? {
      var was := s.handlers[e.job.owner];
      SumUpdate(Weigher(Observed), s.handlers, e.job.owner, was.(slot := SlotAfterWorker(was, e)));
    }
  }

  lemma {:induction false} UpdatesAreObserved(c: Config, s: State, es: seq<Event>)
    requires CanRun(c, s, es)
    ensures Total(Observed, Run(c, s, es).handlers) == Total(Observed, s.handlers) + Updates(c, s, es)
    decreases |es|
  {
    if es != [] {
      StepObserves(c, s, es[0]);
      UpdatesAreObserved(c, Next(c, s, es[0]), es[1..]);
    }
  }

  /** `render` loads the count in one state and locks the histogram in a later one: a finite bucket
      exceeds `+Inf` by at most the histogram updates in between, so with none the page is cumulative. */
  lemma RenderSkew(c: Config, loaded: State, between: seq<Event>, i: nat, j: nat)
    requires Reachable(c, loaded) && CanRun(c, loaded, between) && i <= j < |M.LATENCY_BUCKETS_MS|
    ensures var locked := Run(c, loaded, between);
            && |locked.counters.histogram| == |M.LATENCY_BUCKETS_MS|
            && locked.counters.histogram[i] <= locked.counters.histogram[j]
                 <= loaded.counters.latencyCount + Updates(c, loaded, between)
  {
    var locked := Run(c, loaded, between);
    Always(c, loaded);
    RunKeeps(c, loaded, between);
    CountersAreSums(loaded);
    CountersAreSums(locked);
    UpdatesAreObserved(c, loaded, between);
    BucketsNested(locked.handlers, i, j);
    BucketsNested(loaded.handlers, i, j);
  }

  // Timeouts.

  /** The part of the handler invariant that the sums below need. */
  predicate Plausible(handler: Handler, timeoutMs: nat) {
    && (handler.pc.Ending? && handler.pc.received.TimedOut? ==> handler.pc.latency == timeoutMs)
    && (handler.slot.Open? ==> Listening(handler.pc) || handler.pc.Disconnected?
                               || (handler.pc.Ending? && handler.pc.received.TimedOut?))
  }

  lemma HandlersPlausible(c: Config, s: State)
    requires HandlersInv(c, s)
    ensures forall h | 0 <= h < |s.handlers| :: Plausible(s.handlers[h], 1000 * c.timeoutSecs)
  {
    forall h | 0 <= h < |s.handlers|
      ensures Plausible(s.handlers[h], 1000 * c.timeoutSecs)
    {
      assert HandlerOk(c, s, h);
    }
  }

  lemma {:induction false} OrphanSums(handlers: seq<Handler>, timeoutMs: nat)
    requires forall h | 0 <= h < |handlers| :: Plausible(handlers[h], timeoutMs)
    ensures Total(OpenSlots, handlers) == Total(Live, handlers) + Total(Orphaned, handlers)
    ensures Total(Orphaned, handlers) <= Total(Outcomes(M.Timeout), handlers) + Total(Expiring, handlers)
        + Total(Gone, handlers)
  {
    if handlers != [] {
      OrphanSums(handlers[..|handlers| - 1], timeoutMs);
    }
  }

  /** Work whose handler gave up: the jobs in the pipeline split into those with a listening handler and
      orphans, and every orphan is accounted for by a timeout or a disconnected client. */
  lemma TimedOutWork(c: Config, s: State)
    requires Reachable(c, s)
    ensures && |s.queue| + |InHand(s.hand)| + |s.calling| == Total(Live, s.handlers) + Total(Orphaned, s.handlers)
            && Total(Orphaned, s.handlers) <= s.counters.timeout + Total(Expiring, s.handlers) + Total(Gone, s.handlers)
  {
    Always(c, s);
    HandlersPlausible(c, s);
    OrphanSums(s.handlers, 1000 * c.timeoutSecs);
    CountersAreSums(s);
  }

  lemma {:induction false} TimeoutSums(handlers: seq<Handler>, timeoutMs: nat, i: nat)
    requires forall h | 0 <= h < |handlers| :: Plausible(handlers[h], timeoutMs)
    requires timeoutMs > 1000 && i < |M.LATENCY_BUCKETS_MS|
    ensures Total(Bucket(i), handlers) <= Total(Outcomes(M.Ok), handlers) + Total(Outcomes(M.Error), handlers)
  {
    if handlers != [] {
      TimeoutSums(handlers[..|handlers| - 1], timeoutMs, i);
    }
  }

  lemma {:induction false} TimeoutLatencySum(handlers: seq<Handler>, timeoutMs: nat)
    requires forall h | 0 <= h < |handlers| :: Plausible(handlers[h], timeoutMs)
    requires forall h | 0 <= h < |handlers| :: Weight(Unrecorded, handlers[h]) == 0
    ensures Total(LatencySum, handlers) >= timeoutMs * Total(Outcomes(M.Timeout), handlers)
  {
    if handlers != [] {
      var front, last := handlers[..|handlers| - 1], handlers[|handlers| - 1];
      TimeoutLatencySum(front, timeoutMs);
      assert Weight(Unrecorded, last) == 0;
      var before, w := Total(Outcomes(M.Timeout), front), Weight(Outcomes(M.Timeout), last);
      assert timeoutMs * (before + w) == timeoutMs * before + timeoutMs * w;
      assert timeoutMs * w <= Weight(LatencySum, last);
    }
  }

  /** A quiescent gateway has summed the full configured duration for every timeout. */
  lemma TimeoutsAreSummedInFull(c: Config, s: State)
    requires Reachable(c, s) && Quiescent(s)
    ensures s.counters.latencySum >= 1000 * c.timeoutSecs * s.counters.timeout
  {
    Always(c, s);
    HandlersPlausible(c, s);
    TimeoutLatencySum(s.handlers, 1000 * c.timeoutSecs);
    CountersAreSums(s);
  }

  /** Timed-out requests stay out of the finite buckets, in every reachable state, exactly when the
      timeout is at least two seconds. */
  lemma TimeoutsMissTheBuckets(c: Config)
    ensures c.timeoutSecs >= 2 <==>
            forall s | Reachable(c, s) :: |s.counters.histogram| == 9
                && s.counters.histogram[8] <= s.counters.ok + s.counters.error
  {
    if c.timeoutSecs >= 2 {
      forall s | Reachable(c, s)
        ensures |s.counters.histogram| == 9 && s.counters.histogram[8] <= s.counters.ok + s.counters.error
      {
        Always(c, s);
        HandlersPlausible(c, s);
        TimeoutSums(s.handlers, 1000 * c.timeoutSecs, 8);
        CountersAreSums(s);
      }
    } else {
      var s := OneSecondTimeoutIsCounted(c);
    }
  }

  lemma OneSecondTimeoutIsCounted(c: Config) returns (s: State)
    requires c.timeoutSecs == 1
    ensures Reachable(c, s) && |s.counters.histogram| == 9
    ensures s.counters.histogram[8] == 1 && s.counters.ok + s.counters.error == 0
  {
    hide Plan, CoreResult, Stamped, M.Finished;
    ReachInit(c);
    var call := Http(None, InferRequest("m", "i", None, None));
    s := Accept(c, Init(c), call, "id");
    s := Begin(c, s, 0);
    assert s.handlers == [AcceptedHandler(call, "id").(pc := Waiting)];
    assert s.counters.histogram == M.ZERO.histogram && s.counters.ok + s.counters.error == 0;
    s := Advance(c, s, Expire(0));
    assert s.handlers[0].pc == Ending(TimedOut, 1000, 0);
    OneTimeout(s.counters, 1000);
    s := FinishFully(c, s, 0);
  }

  lemma OneTimeout(m: M.Counters, latency: nat)
    requires |m.histogram| == 9 && latency <= 1000
    ensures var f := M.Finished(m, M.Timeout, latency);
            |f.histogram| == 9 && f.histogram[8] == m.histogram[8] + 1 && f.ok == m.ok && f.error == m.error
  {
  }
}

/** src/main.rs, src/grpc.rs: the request pipeline as a state machine whose steps are the atomic
    actions of the handler tasks, the dispatcher and the workers, interleaved in any order. */
module Gateway {
  import opened Wrappers
  import opened Messages
  import opened WorkerPool
  import M = Metrics

  datatype Settings = Settings(bounds: Bounds, capacity: nat, timeoutSecs: nat, protocol: CoreProtocol)

  /** Environment parsing refuses zero for every number, so a running gateway has a valid configuration. */
  type Config = c: Settings | c.capacity >= 1 && c.timeoutSecs >= 1
    witness Settings(Limits(1, 1), 1, 1, Infer)

  // Handlers: one per HTTP or gRPC call.

  /** `uuidHeader` is the `x-request-id` header when it parses as a UUID, in canonical form. */
  datatype Call = Http(uuidHeader: Option<string>, payload: InferRequest) | Grpc(message: ProtoRequest)

  function SuppliedId(call: Call): Option<string> {
    match call
    case Http(header, _) => header
    case Grpc(message) => if message.requestId == "" then None else Some(message.requestId)
  }

  /** The request put on the queue: the payload with the resolved id stamped on it. */
  function Stamped(call: Call, id: string): InferRequest {
    match call
    case Http(_, payload) => payload.(requestId := Some(id))
    case Grpc(message) => ProtoToRequest(message).(requestId := Some(id))
  }

  datatype Job = Job(request: InferRequest, owner: nat)

  /** The oneshot channel of a handler, seen from the sending side. */
  datatype Slot = NoJob | Open | Delivered(result: JobResult) | Lost | Discarded

  datatype Received = Answered(result: JobResult) | SenderGone | TimedOut

  datatype Refusal = UnknownModel | QueueFull

  datatype Pc =
    | Arrived
    | Turning(why: Refusal)
    | Refused(why: Refusal)
    | Ready
    | Sent
    | Counted
    | Waiting
    | Ending(received: Received, latency: nat, stage: nat)
    | Disconnected

  datatype Handler = Handler(call: Call, id: string, pc: Pc, slot: Slot)

  predicate Listening(pc: Pc) { pc.Sent? || pc.Counted? || pc.Waiting? }

  function OutcomeOf(received: Received): (outcome: M.Outcome)
    ensures outcome.Ok? <==> received.Answered? && received.result.Success?
    ensures outcome.Timeout? <==> received.TimedOut?
  {
    match received
    case Answered(Success(_)) => M.Ok
    case Answered(Failure(_)) => M.Error
    case SenderGone => M.Error
    case TimedOut => M.Timeout
  }

  // The dispatcher and the whole state.

  datatype Hand = Empty | Holding(job: Job) | Measured(job: Job, len: nat) | Sized(job: Job)

  /** `calling` and `releasing` are the worker tasks before and after they answered; each owns a permit.
      `accepted`, `dispatched`, `resizes`, `shrinks`, `lastLen` and `aborts` record history only. */
  datatype State = State(
    handlers: seq<Handler>, queue: seq<Job>, hand: Hand, calling: set<Job>, releasing: set<Job>,
    pool: Pool, counters: M.Counters,
    accepted: seq<Job>, dispatched: seq<Job>, resizes: seq<Resize>, shrinks: nat, lastLen: nat, aborts: nat)

  function Held(s: State): nat { |s.calling| + |s.releasing| }

  function InHand(hand: Hand): seq<Job> { if hand.Empty? then [] else [hand.job] }

  function Init(c: Config): State {
    State([], [], Empty, {}, {}, Pool(c.bounds.min, c.bounds.min), M.ZERO, [], [], [], 0, 0, 0)
  }

  datatype Event =
      // a handler task
    | Arrive(call: Call)
    | Validate(h: nat, known: bool, minted: string)
    | Refuse(h: nat)
    | TrySend(h: nat)
    | BeginCount(h: nat)
    | BeginFlight(h: nat)
    | Wake(h: nat, elapsed: nat)
    | Expire(h: nat)
    | Disconnect(h: nat)
    | Finish(h: nat)
      // the dispatcher
    | Receive
    | Measure
    | Reconfigure
    | Spawn
      // a worker task
    | Complete(job: Job, reply: CoreReply)
    | Abort(job: Job)
    | Release(job: Job)

  predicate IsHandlerEvent(e: Event) {
    e.Validate? || e.Refuse? || e.TrySend? || e.BeginCount? || e.BeginFlight? || e.Wake? || e.Expire?
        || e.Disconnect? || e.Finish?
  }

  predicate IsDispatcherEvent(e: Event) { e.Receive? || e.Measure? || e.Reconfigure? || e.Spawn? }

  predicate IsWorkerEvent(e: Event) { e.Complete? || e.Abort? || e.Release? }

  predicate HandlerEnabled(handler: Handler, e: Event) {
    match e
    case Validate(_, _, _) => handler.pc.Arrived?
    case Refuse(_) => handler.pc.Turning?
    case TrySend(_) => handler.pc.Ready?
    case BeginCount(_) => handler.pc.Sent?
    case BeginFlight(_) => handler.pc.Counted?
    // `timeout` polls the channel before the clock, so it expires only while nothing is there.
    case Wake(_, _) => handler.pc.Waiting? && (handler.slot.Delivered? || handler.slot.Lost?)
    case Expire(_) => handler.pc.Waiting? && handler.slot.Open?
    // The client goes away: the task is dropped at its only await point.
    case Disconnect(_) => handler.pc.Waiting?
    case Finish(_) => handler.pc.Ending? && handler.pc.stage < M.FINISH_STAGES
    case _ => false
  }

  predicate Enabled(c: Config, s: State, e: Event) {
    if IsHandlerEvent(e) then e.h < |s.handlers| && HandlerEnabled(s.handlers[e.h], e)
    else match e
      case Arrive(_) => true
      case Receive => s.hand.Empty? && s.queue != []
      case Measure => s.hand.Holding?
      case Reconfigure => s.hand.Measured?
      case Spawn => s.hand.Sized? && s.pool.idle > 0
      case Complete(job, reply) => job in s.calling && job.owner < |s.handlers| && ReplyFits(c.protocol, reply)
      case Abort(job) => job in s.calling && job.owner < |s.handlers|
      case Release(job) => job in s.releasing
      case _ => false
  }

  /** The handler's own fields after one of its steps; `room` says whether the queue has a free place. */
  function HandlerNext(c: Config, handler: Handler, e: Event, room: bool): Handler
    requires HandlerEnabled(handler, e)
  {
    match e
    case Validate(_, known, minted) =>
      if known then handler.(pc := Ready, id := SuppliedId(handler.call).GetOr(minted))
      else handler.(pc := Turning(UnknownModel))
    case Refuse(_) => handler.(pc := Refused(handler.pc.why))
    case TrySend(_) => if room then handler.(pc := Sent, slot := Open) else handler.(pc := Turning(QueueFull))
    case BeginCount(_) => handler.(pc := Counted)
    case BeginFlight(_) => handler.(pc := Waiting)
    case Wake(_, elapsed) =>
      var received := if handler.slot.Delivered? then Answered(handler.slot.result) else SenderGone;
      handler.(pc := Ending(received, elapsed, 0))
    case Expire(_) => handler.(pc := Ending(TimedOut, 1000 * c.timeoutSecs, 0))
    case Disconnect(_) => handler.(pc := Disconnected)
    case Finish(_) => handler.(pc := handler.pc.(stage := handler.pc.stage + 1))
  }

  function CountersNext(counters: M.Counters, handler: Handler, e: Event): M.Counters
    requires HandlerEnabled(handler, e)
  {
    match e
    case Refuse(_) =>
      if handler.pc.why.QueueFull? then M.CountQueueFull(counters) else M.CountInvalid(counters)
    case BeginCount(_) => M.CountRequest(counters)
    case BeginFlight(_) => M.EnterFlight(counters)
    case Finish(_) => M.FinishStage(counters, handler.pc.stage, OutcomeOf(handler.pc.received), handler.pc.latency)
    case _ => counters
  }

  function AfterHandler(c: Config, s: State, e: Event): State
    requires IsHandlerEvent(e) && Enabled(c, s, e)
  {
    var handler := s.handlers[e.h];
    var room := |s.queue| < c.capacity;
    var t := s.(handlers := s.handlers[e.h := HandlerNext(c, handler, e, room)],
                counters := CountersNext(s.counters, handler, e));
    if e.TrySend? && room then
      var job := Job(Stamped(handler.call, handler.id), e.h);
      t.(queue := s.queue + [job], accepted := s.accepted + [job])
    else t
  }

  function AfterDispatcher(c: Config, s: State, e: Event): State
    requires IsDispatcherEvent(e) && Enabled(c, s, e)
  {
    match e
    case Receive => s.(hand := Holding(s.queue[0]), queue := s.queue[1..])
    case Measure => s.(hand := Measured(s.hand.job, |s.queue|))
    case Reconfigure =>
      var desired := Plan(c.bounds, s.hand.len);
      s.(hand := Sized(s.hand.job),
         pool := Reconfigured(s.pool, desired),
         resizes := s.resizes + [Resize(Held(s), desired)],
         shrinks := if desired < s.pool.current then s.shrinks + 1 else s.shrinks,
         lastLen := s.hand.len)
    case Spawn =>
      s.(hand := Empty,
         pool := s.pool.(idle := s.pool.idle - 1),
         calling := s.calling + {s.hand.job},
         dispatched := s.dispatched + [s.hand.job])
  }

  /** A worker answers on the channel of its own job, or its task dies and the channel closes. */
  function SlotAfterWorker(handler: Handler, e: Event): Slot
    requires e.Complete? || e.Abort?
  {
    if !Listening(handler.pc) then Discarded
    else if e.Complete? then Delivered(CoreResult(e.job.request, e.reply))
    else Lost
  }

  function AfterWorker(c: Config, s: State, e: Event): State
    requires IsWorkerEvent(e) && Enabled(c, s, e)
  {
    if e.Release? then
      s.(releasing := s.releasing - {e.job}, pool := s.pool.(idle := s.pool.idle + 1))
    else
      var handler := s.handlers[e.job.owner];
      s.(handlers := s.handlers[e.job.owner := handler.(slot := SlotAfterWorker(handler, e))],
         calling := s.calling - {e.job},
         releasing := s.releasing + {e.job},
         aborts := if e.Abort? then s.aborts + 1 else s.aborts)
  }

  function Next(c: Config, s: State, e: Event): State
    requires Enabled(c, s, e)
  {
    if IsHandlerEvent(e) then AfterHandler(c, s, e)
    else if IsDispatcherEvent(e) then AfterDispatcher(c, s, e)
    else if IsWorkerEvent(e) then AfterWorker(c, s, e)
    else s.(handlers := s.handlers + [Handler(e.call, "", Arrived, NoJob)])
  }

  // Runs.

  predicate CanRun(c: Config, s: State, es: seq<Event>)
    decreases |es|
  {
    es == [] || (Enabled(c, s, es[0]) && CanRun(c, Next(c, s, es[0]), es[1..]))
  }

  function Run(c: Config, s: State, es: seq<Event>): State
    requires CanRun(c, s, es)
    decreases |es|
  {
    if es == [] then s else Run(c, Next(c, s, es[0]), es[1..])
  }

  lemma {:induction false} RunConcat(c: Config, s: State, es: seq<Event>, fs: seq<Event>)
    requires CanRun(c, s, es) && CanRun(c, Run(c, s, es), fs)
    ensures CanRun(c, s, es + fs) && Run(c, s, es + fs) == Run(c, Run(c, s, es), fs)
    decreases |es|
  {
    if es == [] {
      assert es + fs == fs;
    } else {
      assert (es + fs)[1..] == es[1..] + fs;
      RunConcat(c, Next(c, s, es[0]), es[1..], fs);
    }
  }
}

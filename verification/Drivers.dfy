/** src/main.rs `infer_handler` and src/grpc.rs `infer`: the two request drivers, each with its own
    validation, id resolution, metrics calls and answers, and that the system built from them has exactly
    the runs of the request machine. */
module Drivers {
  import opened Wrappers
  import opened Text
  import opened Messages
  import opened Gateway
  import M = Metrics

  // Answers to the client.

  datatype GrpcCode = Ok | InvalidArgument | Unavailable | Internal | DeadlineExceeded

  datatype Payload = Response(response: InferResponse) | Message(text: string) | Status(text: string)

  /** `idHeader` is the `x-request-id` header of an HTTP response. */
  datatype Answer =
    | HttpAnswer(status: nat, payload: Payload, idHeader: Option<string>)
    | GrpcAnswer(code: GrpcCode, payload: Payload)

  /** What an arm of the final match records and returns. */
  datatype Arm = Arm(outcome: M.Outcome, reply: Answer)

  // The HTTP driver.

  function HttpRefusal(payload: InferRequest, id: string, why: Refusal): Answer {
    match why
    case UnknownModel => HttpAnswer(400, Message("unknown model '" + payload.model + "'"), None)
    case QueueFull => HttpAnswer(503, Status("queue_full"), Some(id))
  }

  /** The HTTP handler overwrites the response's id. */
  function HttpArm(id: string, response: Received): Arm {
    match response
    case Answered(Success(r)) => Arm(M.Ok, HttpAnswer(200, Response(r.(requestId := id)), Some(id)))
    case Answered(Failure(message)) => Arm(M.Error, HttpAnswer(500, Message(message), Some(id)))
    case SenderGone => Arm(M.Error, HttpAnswer(500, Message("worker task cancelled"), Some(id)))
    case TimedOut => Arm(M.Timeout, HttpAnswer(504, Status("timeout"), Some(id)))
  }

  // The gRPC driver.

  function GrpcRefusal(message: ProtoRequest, why: Refusal): Answer {
    match why
    case UnknownModel => GrpcAnswer(InvalidArgument, Message("unknown model '" + message.model + "'"))
    case QueueFull => GrpcAnswer(Unavailable, Message("queue full"))
  }

  /** The gRPC handler returns the response as it came. */
  function GrpcArm(timeoutSecs: nat, response: Received): Arm {
    match response
    case Answered(Success(r)) => Arm(M.Ok, GrpcAnswer(Ok, Response(ResponseToProto(r))))
    case Answered(Failure(message)) => Arm(M.Error, GrpcAnswer(Internal, Message(message)))
    case SenderGone => Arm(M.Error, GrpcAnswer(Internal, Message("worker task cancelled")))
    case TimedOut =>
      Arm(M.Timeout, GrpcAnswer(DeadlineExceeded, Message("inference timed out after " + Decimal(timeoutSecs) + "s")))
  }

  // Tasks.

  /** Program points; `Recording` is inside finish_request with `stage` of its operations done. */
  datatype Point =
    | Entry
    | NoteInvalid
    | Enqueue(request: InferRequest)
    | NoteFull
    | BeginTotal
    | BeginInFlight
    | AwaitReply
    | Recording(arm: Arm, latency: nat, stage: nat)
    | Returned(reply: Answer)
    | Dropped

  /** A handler task: its arguments, its local `request_id` (empty until resolved), and where it is. */
  datatype Task = Task(call: Call, requestId: string, point: Point)

  /** What a task sees of the rest: the configured timeout, whether the queue has a free place, its channel. */
  datatype View = View(timeoutSecs: nat, room: bool, slot: Slot)

  /** What one atomic action of a task does: to itself, to the counters, and to the queue. */
  datatype Effect = Effect(requestId: string, point: Point, counters: M.Counters, sent: Option<InferRequest>)

  /** `timeout(response_rx)`: what the channel has for the task, if anything. */
  function Polled(slot: Slot): Option<Received> {
    match slot
    case Delivered(result) => Some(Answered(result))
    case Lost => Some(SenderGone)
    case _ => None
  }

  /** The next operation of finish_request, after which the reply is returned. */
  function Recorded(id: string, arm: Arm, latency: nat, stage: nat, m: M.Counters): Option<Effect> {
    if stage >= M.FINISH_STAGES then None
    else
      var point := if stage + 1 == M.FINISH_STAGES then Returned(arm.reply) else Recording(arm, latency, stage + 1);
      Some(Effect(id, point, M.FinishStage(m, stage, arm.outcome, latency), None))
  }

  /** The next atomic action of `infer_handler`; None when `e` is not what it does next. */
  function HttpStep(header: Option<string>, payload: InferRequest, id: string, point: Point, e: Event, view: View,
                    m: M.Counters): Option<Effect>
  {
    match point
    case Entry =>
      if !e.Validate? then None
      else if !e.known then Some(Effect(id, NoteInvalid, m, None))
      else
        var resolved := match header case Some(uuid) => uuid case None => e.minted;
        Some(Effect(resolved, Enqueue(payload.(requestId := Some(resolved))), m, None))
    case NoteInvalid =>
      if !e.Refuse? then None
      else Some(Effect(id, Returned(HttpRefusal(payload, id, UnknownModel)), M.CountInvalid(m), None))
    case Enqueue(request) =>
      if !e.TrySend? then None
      else if view.room then Some(Effect(id, BeginTotal, m, Some(request)))
      else Some(Effect(id, NoteFull, m, None))
    case NoteFull =>
      if !e.Refuse? then None
      else Some(Effect(id, Returned(HttpRefusal(payload, id, QueueFull)), M.CountQueueFull(m), None))
    case BeginTotal => if !e.BeginCount? then None else Some(Effect(id, BeginInFlight, M.CountRequest(m), None))
    case BeginInFlight => if !e.BeginFlight? then None else Some(Effect(id, AwaitReply, M.EnterFlight(m), None))
    case AwaitReply =>
      if e.Disconnect? then Some(Effect(id, Dropped, m, None))
      else if e.Expire? && view.slot.Open? then
        Some(Effect(id, Recording(HttpArm(id, TimedOut), 1000 * view.timeoutSecs, 0), m, None))
      else if e.Wake? then
        var response :- Polled(view.slot);
        Some(Effect(id, Recording(HttpArm(id, response), e.elapsed, 0), m, None))
      else None
    case Recording(arm, latency, stage) => if !e.Finish? then None else Recorded(id, arm, latency, stage, m)
    case Returned(_) => None
    case Dropped => None
  }

  /** The next atomic action of the gRPC `infer`. */
  function GrpcStep(message: ProtoRequest, id: string, point: Point, e: Event, view: View, m: M.Counters)
      : Option<Effect>
  {
    match point
    case Entry =>
      if !e.Validate? then None
      else if !e.known then Some(Effect(id, NoteInvalid, m, None))
      else
        var resolved := if message.requestId == "" then e.minted else message.requestId;
        var request := ProtoToRequest(message);
        Some(Effect(resolved, Enqueue(request.(requestId := Some(resolved))), m, None))
    case NoteInvalid =>
      if !e.Refuse? then None
      else Some(Effect(id, Returned(GrpcRefusal(message, UnknownModel)), M.CountInvalid(m), None))
    case Enqueue(request) =>
      if !e.TrySend? then None
      else if view.room then Some(Effect(id, BeginTotal, m, Some(request)))
      else Some(Effect(id, NoteFull, m, None))
    case NoteFull =>
      if !e.Refuse? then None
      else Some(Effect(id, Returned(GrpcRefusal(message, QueueFull)), M.CountQueueFull(m), None))
    case BeginTotal => if !e.BeginCount? then None else Some(Effect(id, BeginInFlight, M.CountRequest(m), None))
    case BeginInFlight => if !e.BeginFlight? then None else Some(Effect(id, AwaitReply, M.EnterFlight(m), None))
    case AwaitReply =>
      if e.Disconnect? then Some(Effect(id, Dropped, m, None))
      else if e.Expire? && view.slot.Open? then
        Some(Effect(id, Recording(GrpcArm(view.timeoutSecs, TimedOut), 1000 * view.timeoutSecs, 0), m, None))
      else if e.Wake? then
        var response :- Polled(view.slot);
        Some(Effect(id, Recording(GrpcArm(view.timeoutSecs, response), e.elapsed, 0), m, None))
      else None
    case Recording(arm, latency, stage) => if !e.Finish? then None else Recorded(id, arm, latency, stage, m)
    case Returned(_) => None
    case Dropped => None
  }

  function TaskStep(task: Task, e: Event, view: View, m: M.Counters): Option<Effect> {
    match task.call
    case Http(header, payload) => HttpStep(header, payload, task.requestId, task.point, e, view, m)
    case Grpc(message) => GrpcStep(message, task.requestId, task.point, e, view, m)
  }

  // The system of both drivers, the dispatcher and the workers.

  /** `rest` is everything but the handlers; its `handlers` stay empty. */
  datatype System = System(tasks: seq<Task>, slots: seq<Slot>, rest: State)

  function Boot(c: Config): System { System([], [], Init(c)) }

  /** The receiver is alive from the try_send until the answer, the timeout or the disconnection. */
  predicate Receiving(task: Task) {
    task.point.BeginTotal? || task.point.BeginInFlight? || task.point.AwaitReply?
  }

  predicate SystemOk(y: System) { |y.tasks| == |y.slots| && y.rest.handlers == [] }

  function EffectOf(c: Config, y: System, e: Event): Option<Effect>
    requires SystemOk(y) && IsHandlerEvent(e) && e.h < |y.tasks|
  {
    TaskStep(y.tasks[e.h], e, View(c.timeoutSecs, |y.rest.queue| < c.capacity, y.slots[e.h]), y.rest.counters)
  }

  predicate SystemEnabled(c: Config, y: System, e: Event)
    requires SystemOk(y)
  {
    if IsHandlerEvent(e) then e.h < |y.tasks| && EffectOf(c, y, e).Some?
    else if e.Complete? then
      e.job in y.rest.calling && e.job.owner < |y.tasks| && ReplyFits(c.protocol, e.reply)
    else if e.Abort? then e.job in y.rest.calling && e.job.owner < |y.tasks|
    else Enabled(c, y.rest, e)
  }

  function AfterTask(y: System, h: nat, effect: Effect): System
    requires SystemOk(y) && h < |y.tasks|
  {
    var task := y.tasks[h].(requestId := effect.requestId, point := effect.point);
    var z := y.(tasks := y.tasks[h := task], rest := y.rest.(counters := effect.counters));
    match effect.sent
    case None => z
    case Some(request) =>
      var job := Job(request, h);
      z.(slots := y.slots[h := Open],
         rest := z.rest.(queue := z.rest.queue + [job], accepted := z.rest.accepted + [job]))
  }

  function AfterAnswer(y: System, e: Event): System
    requires SystemOk(y) && (e.Complete? || e.Abort?) && e.job.owner < |y.tasks|
  {
    var slot := if !Receiving(y.tasks[e.job.owner]) then Discarded
                else if e.Complete? then Delivered(CoreResult(e.job.request, e.reply))
                else Lost;
    y.(slots := y.slots[e.job.owner := slot],
       rest := y.rest.(calling := y.rest.calling - {e.job}, releasing := y.rest.releasing + {e.job},
                       aborts := if e.Abort? then y.rest.aborts + 1 else y.rest.aborts))
  }

  function SystemNext(c: Config, y: System, e: Event): (z: System)
    requires SystemOk(y) && SystemEnabled(c, y, e)
    ensures SystemOk(z)
  {
    if IsHandlerEvent(e) then AfterTask(y, e.h, EffectOf(c, y, e).value)
    else if e.Complete? || e.Abort? then AfterAnswer(y, e)
    else if e.Arrive? then y.(tasks := y.tasks + [Task(e.call, "", Entry)], slots := y.slots + [NoJob])
    else y.(rest := Next(c, y.rest, e))
  }

  predicate SystemCanRun(c: Config, y: System, es: seq<Event>)
    requires SystemOk(y)
    decreases |es|
  {
    es == [] || (SystemEnabled(c, y, es[0]) && SystemCanRun(c, SystemNext(c, y, es[0]), es[1..]))
  }

  function SystemRun(c: Config, y: System, es: seq<Event>): (z: System)
    requires SystemOk(y) && SystemCanRun(c, y, es)
    ensures SystemOk(z)
    decreases |es|
  {
    if es == [] then y else SystemRun(c, SystemNext(c, y, es[0]), es[1..])
  }

  // Refinement of the request machine.

  function ArmOf(c: Config, call: Call, id: string, received: Received): Arm {
    if call.Http? then HttpArm(id, received) else GrpcArm(c.timeoutSecs, received)
  }

  /** What the client of a finished handler got; a disconnected or unfinished handler answers nothing. */
  function AnswerOf(c: Config, handler: Handler): Option<Answer> {
    match handler.pc
    case Refused(why) =>
      (match handler.call
       case Http(_, payload) => Some(HttpRefusal(payload, handler.id, why))
       case Grpc(message) => Some(GrpcRefusal(message, why)))
    case Ending(received, _, stage) =>
      if stage < M.FINISH_STAGES then None else Some(ArmOf(c, handler.call, handler.id, received).reply)
    case _ => None
  }

  /** The task is where the handler is, with the same request, id, outcome and answer. */
  predicate Follows(c: Config, task: Task, handler: Handler) {
    && task.call == handler.call && task.requestId == handler.id
    && match task.point
       case Entry => handler.pc.Arrived?
       case NoteInvalid => handler.pc == Turning(UnknownModel)
       case Enqueue(request) => handler.pc.Ready? && request == Stamped(handler.call, handler.id)
       case NoteFull => handler.pc == Turning(QueueFull)
       case BeginTotal => handler.pc.Sent?
       case BeginInFlight => handler.pc.Counted?
       case AwaitReply => handler.pc.Waiting?
       case Recording(arm, latency, stage) =>
         && stage < M.FINISH_STAGES && handler.pc.Ending? && handler.pc.latency == latency
         && handler.pc.stage == stage
         && arm == ArmOf(c, handler.call, handler.id, handler.pc.received)
         && arm.outcome == OutcomeOf(handler.pc.received)
       case Returned(reply) =>
         && (handler.pc.Refused? || (handler.pc.Ending? && handler.pc.stage == M.FINISH_STAGES))
         && AnswerOf(c, handler) == Some(reply)
       case Dropped => handler.pc.Disconnected?
  }

  ghost predicate Refines(c: Config, y: System, s: State) {
    && SystemOk(y) && |y.tasks| == |s.handlers| && y.rest == s.(handlers := [])
    && forall h | 0 <= h < |y.tasks| :: Follows(c, y.tasks[h], s.handlers[h]) && y.slots[h] == s.handlers[h].slot
  }

  /** What the machine says about one atomic action of a task. */
  predicate SameStep(c: Config, task: Task, handler: Handler, e: Event, room: bool, m: M.Counters,
                     effect: Option<Effect>)
    requires IsHandlerEvent(e)
  {
    && (effect.Some? <==> HandlerEnabled(handler, e))
    && (effect.Some? ==>
          && Follows(c, Task(task.call, effect.value.requestId, effect.value.point), HandlerNext(c, handler, e, room))
          && effect.value.counters == CountersNext(m, handler, e)
          && effect.value.sent
             == if e.TrySend? && room then Some(Stamped(handler.call, handler.id)) else None)
  }

  lemma HttpRefines(c: Config, task: Task, handler: Handler, e: Event, room: bool, m: M.Counters)
    requires Follows(c, task, handler) && IsHandlerEvent(e) && task.call.Http?
    ensures SameStep(c, task, handler, e, room, m, TaskStep(task, e, View(c.timeoutSecs, room, handler.slot), m))
  {
  }

  lemma GrpcRefines(c: Config, task: Task, handler: Handler, e: Event, room: bool, m: M.Counters)
    requires Follows(c, task, handler) && IsHandlerEvent(e) && task.call.Grpc?
    ensures SameStep(c, task, handler, e, room, m, TaskStep(task, e, View(c.timeoutSecs, room, handler.slot), m))
  {
  }

  /** The machine's state after handler `h` became `became`, with the counters and the job it sent. */
  function WithHandler(s: State, h: nat, became: Handler, effect: Effect): State
    requires h < |s.handlers|
  {
    var t := s.(handlers := s.handlers[h := became], counters := effect.counters);
    match effect.sent
    case None => t
    case Some(request) => t.(queue := s.queue + [Job(request, h)], accepted := s.accepted + [Job(request, h)])
  }

  lemma UpdateRefines(c: Config, y: System, s: State, h: nat, became: Handler, effect: Effect)
    requires Refines(c, y, s) && h < |y.tasks|
    requires Follows(c, Task(y.tasks[h].call, effect.requestId, effect.point), became)
    requires became.slot == if effect.sent.Some? then Open else s.handlers[h].slot
    ensures Refines(c, AfterTask(y, h, effect), WithHandler(s, h, became, effect))
  {
    hide Follows;
    assert y.rest == s.(handlers := []);
  }

  lemma NextWithHandler(c: Config, s: State, e: Event, effect: Effect)
    requires IsHandlerEvent(e) && Enabled(c, s, e) && effect.counters == CountersNext(s.counters, s.handlers[e.h], e)
    requires effect.sent == if e.TrySend? && |s.queue| < c.capacity
                            then Some(Stamped(s.handlers[e.h].call, s.handlers[e.h].id)) else None
    ensures Next(c, s, e)
         == WithHandler(s, e.h, HandlerNext(c, s.handlers[e.h], e, |s.queue| < c.capacity), effect)
  {
    hide HandlerNext, CountersNext, Stamped;
  }

  lemma TaskRefines(c: Config, y: System, s: State, e: Event)
    requires Refines(c, y, s) && IsHandlerEvent(e) && e.h < |y.tasks|
    ensures SameStep(c, y.tasks[e.h], s.handlers[e.h], e, |s.queue| < c.capacity, s.counters, EffectOf(c, y, e))
  {
    hide SameStep, TaskStep, Follows;
    var task, handler, room := y.tasks[e.h], s.handlers[e.h], |s.queue| < c.capacity;
    RefinesAt(c, y, s, e.h);
    if task.call.Http? {
      HttpRefines(c, task, handler, e, room, s.counters);
    } else {
      GrpcRefines(c, task, handler, e, room, s.counters);
    }
  }

  lemma TaskStepRefines(c: Config, y: System, s: State, e: Event)
    requires Refines(c, y, s) && IsHandlerEvent(e)
    ensures SystemEnabled(c, y, e) <==> Enabled(c, s, e)
    ensures Enabled(c, s, e) ==> Refines(c, SystemNext(c, y, e), Next(c, s, e))
  {
    if e.h < |y.tasks| {
      hide EffectOf, Follows, HandlerEnabled, HandlerNext, CountersNext, Stamped, AfterTask, AfterHandler;
      TaskRefines(c, y, s, e);
      if Enabled(c, s, e) {
        var room := |s.queue| < c.capacity;
        SlotAfterTask(c, s.handlers[e.h], e, room);
        NextWithHandler(c, s, e, EffectOf(c, y, e).value);
        UpdateRefines(c, y, s, e.h, HandlerNext(c, s.handlers[e.h], e, room), EffectOf(c, y, e).value);
      }
    }
  }

  lemma RefinesAt(c: Config, y: System, s: State, h: nat)
    requires Refines(c, y, s) && h < |y.tasks|
    ensures Follows(c, y.tasks[h], s.handlers[h]) && y.slots[h] == s.handlers[h].slot
    ensures y.rest.queue == s.queue && y.rest.counters == s.counters
  {
  }

  /** A handler step opens the channel when it puts the job on the queue, and leaves it alone otherwise. */
  lemma SlotAfterTask(c: Config, handler: Handler, e: Event, room: bool)
    requires IsHandlerEvent(e) && HandlerEnabled(handler, e)
    ensures HandlerNext(c, handler, e, room).slot == if e.TrySend? && room then Open else handler.slot
    ensures HandlerNext(c, handler, e, room).call == handler.call
  {
  }

  lemma AnswerRefines(c: Config, y: System, s: State, e: Event)
    requires Refines(c, y, s) && (e.Complete? || e.Abort?)
    ensures SystemEnabled(c, y, e) <==> Enabled(c, s, e)
    ensures Enabled(c, s, e) ==> Refines(c, SystemNext(c, y, e), Next(c, s, e))
  {
    if Enabled(c, s, e) {
      assert Follows(c, y.tasks[e.job.owner], s.handlers[e.job.owner]);
      assert Receiving(y.tasks[e.job.owner]) <==> Listening(s.handlers[e.job.owner].pc);
    }
  }

  lemma StepRefines(c: Config, y: System, s: State, e: Event)
    requires Refines(c, y, s)
    ensures SystemEnabled(c, y, e) <==> Enabled(c, s, e)
    ensures Enabled(c, s, e) ==> Refines(c, SystemNext(c, y, e), Next(c, s, e))
  {
    if IsHandlerEvent(e) {
      TaskStepRefines(c, y, s, e);
    } else if e.Complete? || e.Abort? {
      AnswerRefines(c, y, s, e);
    }
  }

  lemma {:induction false} RunRefines(c: Config, y: System, s: State, es: seq<Event>)
    requires Refines(c, y, s)
    ensures SystemCanRun(c, y, es) <==> CanRun(c, s, es)
    ensures CanRun(c, s, es) ==> Refines(c, SystemRun(c, y, es), Run(c, s, es))
    decreases |es|
  {
    if es != [] {
      StepRefines(c, y, s, es[0]);
      if Enabled(c, s, es[0]) {
        RunRefines(c, SystemNext(c, y, es[0]), Next(c, s, es[0]), es[1..]);
      }
    }
  }

  /** The two drivers over the shared queue, pool and counters have exactly the runs of the request machine,
      and every task is where its handler is, with the same id, outcome and answer: whatever holds of all
      runs of the machine holds of the drivers. */
  lemma DriversRefineMachine(c: Config, es: seq<Event>)
    ensures SystemCanRun(c, Boot(c), es) <==> CanRun(c, Init(c), es)
    ensures CanRun(c, Init(c), es) ==> Refines(c, SystemRun(c, Boot(c), es), Run(c, Init(c), es))
  {
    RunRefines(c, Boot(c), Init(c), es);
  }
}

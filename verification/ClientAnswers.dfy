/** What a client is told, in terms of what happened in the run: the registry's verdict, the queue, the one core
    call made for its request, the worker's death or the clock. */
module ClientAnswers {
  import opened Wrappers
  import opened Text
  import opened Messages
  import opened Gateway
  import opened Drivers
  import opened GatewayInvariants
  import opened GatewayTheorems
  import opened RequestIds
  import M = Metrics

  /** The answers of the HTTP API. */
  predicate HttpSays(payload: InferRequest, id: string, pc: Pc, reply: Answer) {
    match pc
    case Refused(UnknownModel) => reply == HttpAnswer(400, Message("unknown model '" + payload.model + "'"), None)
    case Refused(QueueFull) => reply == HttpAnswer(503, Status("queue_full"), Some(id))
    case Ending(Answered(Success(r)), _, _) => reply == HttpAnswer(200, Response(r.(requestId := id)), Some(id))
    case Ending(Answered(Failure(message)), _, _) => reply == HttpAnswer(500, Message(message), Some(id))
    case Ending(SenderGone, _, _) => reply == HttpAnswer(500, Message("worker task cancelled"), Some(id))
    case Ending(TimedOut, _, _) => reply == HttpAnswer(504, Status("timeout"), Some(id))
    case _ => false
  }

  /** The answers of the gRPC service; latencies are 64-bit. */
  predicate GrpcSays(message: ProtoRequest, timeoutSecs: nat, pc: Pc, reply: Answer) {
    match pc
    case Refused(UnknownModel) => reply == GrpcAnswer(InvalidArgument, Message("unknown model '" + message.model + "'"))
    case Refused(QueueFull) => reply == GrpcAnswer(Unavailable, Message("queue full"))
    case Ending(Answered(Success(r)), _, _) =>
      reply == GrpcAnswer(Ok, Response(r.(latencyMs := r.latencyMs % 0x1_0000_0000_0000_0000)))
    case Ending(Answered(Failure(text)), _, _) => reply == GrpcAnswer(Internal, Message(text))
    case Ending(SenderGone, _, _) => reply == GrpcAnswer(Internal, Message("worker task cancelled"))
    case Ending(TimedOut, _, _) =>
      reply == GrpcAnswer(DeadlineExceeded, Message("inference timed out after " + Decimal(timeoutSecs) + "s"))
    case _ => false
  }

  /** The request a call puts on the queue: its own content under the resolved id. */
  predicate Carries(call: Call, id: string, request: InferRequest) {
    && request.requestId == Some(id)
    && match call
       case Http(_, payload) =>
         request.model == payload.model && request.input == payload.input && request.options == payload.options
       case Grpc(message) =>
         request.model == message.model && request.input == message.input && request.options == message.options
  }

  /** Why the handler ended as it did: the one answer of its own job's worker, if it got one. */
  ghost predicate Explained(c: Config, es: seq<Event>, h: nat, handler: Handler) {
    handler.pc.Ending? ==>
      match handler.pc.received
      case Answered(result) =>
        Wake(h, handler.pc.latency) in es
        && exists request: InferRequest, reply: CoreReply ::
          && Carries(handler.call, handler.id, request)
          && (c.protocol.Infer? ==> !reply.ChatBody?) && (c.protocol.LlamaChat? ==> !reply.InferBody?)
          && OnlyAnswer(es, h, Complete(Job(request, h), reply)) && Reports(request, reply, result)
      case SenderGone =>
        Wake(h, handler.pc.latency) in es
        && exists request :: Carries(handler.call, handler.id, request) && OnlyAnswer(es, h, Abort(Job(request, h)))
      case TimedOut => Expire(h) in es && handler.pc.latency == 1000 * c.timeoutSecs
  }

  /** Every answer of either front end, over every run: the client is told what happened to its own request,
      under the id resolved for it, and a failed core call is never answered as a success. */
  lemma ClientsAreToldTheTruth(c: Config, es: seq<Event>, h: nat)
    requires SystemCanRun(c, Boot(c), es)
    requires h < |SystemRun(c, Boot(c), es).tasks| && SystemRun(c, Boot(c), es).tasks[h].point.Returned?
    ensures CanRun(c, Init(c), es) && h < |Run(c, Init(c), es).handlers|
    ensures var task, handler := SystemRun(c, Boot(c), es).tasks[h], Run(c, Init(c), es).handlers[h];
            && task.call == handler.call
            && (match task.call
                case Http(_, payload) => HttpSays(payload, handler.id, handler.pc, task.point.reply)
                case Grpc(message) => GrpcSays(message, c.timeoutSecs, handler.pc, task.point.reply))
            && Explained(c, es, h, handler)
            && (handler.pc != Refused(UnknownModel) ==>
                  exists minted :: Validate(h, true, minted) in es && Resolves(task.call, minted, handler.id))
  {
    DriversRefineMachine(c, es);
    var task, t := SystemRun(c, Boot(c), es).tasks[h], Run(c, Init(c), es);
    RefinesAt(c, SystemRun(c, Boot(c), es), t, h);
    FinishedSays(c, task, t.handlers[h]);
    WhyEnded(c, es, h);
    if t.handlers[h].pc != Refused(UnknownModel) {
      hide Run, CanRun;
      var i := IdResolved(c, Init(c), es, h);
      assert es[i] == Validate(h, true, es[i].minted);
    }
  }

  lemma FinishedSays(c: Config, task: Task, handler: Handler)
    requires Follows(c, task, handler) && task.point.Returned?
    ensures match task.call
            case Http(_, payload) => HttpSays(payload, handler.id, handler.pc, task.point.reply)
            case Grpc(message) => GrpcSays(message, c.timeoutSecs, handler.pc, task.point.reply)
    ensures !handler.pc.Arrived? && (Doomed(handler.pc) ==> handler.pc == Refused(UnknownModel))
  {
  }

  lemma WhyEnded(c: Config, es: seq<Event>, h: nat)
    requires CanRun(c, Init(c), es) && h < |Run(c, Init(c), es).handlers|
    ensures Explained(c, es, h, Run(c, Init(c), es).handlers[h])
  {
    hide Inv, OnlyAnswer, Reports, Next, Enabled;
    var handler := Run(c, Init(c), es).handlers[h];
    if handler.pc.Ending? {
      ResultsReachTheirOwner(c, es, h);
      StampedCarries(handler.call, handler.id);
      TimeoutLatency(c, es, h);
      hide Run, CanRun, Stamped, Carries;
      var i := EndedBy(c, Init(c), es, h);
      assert es[i] in es;
    }
  }

  lemma {:induction false} EndsOnce(c: Config, s: State, es: seq<Event>, h: nat)
    requires CanRun(c, s, es) && h < |s.handlers| && s.handlers[h].pc.Ending?
    ensures var t := Run(c, s, es);
            && h < |t.handlers| && t.handlers[h].pc.Ending?
            && t.handlers[h].pc.received == s.handlers[h].pc.received
            && t.handlers[h].pc.latency == s.handlers[h].pc.latency
    decreases |es|
  {
    if es != [] {
      hide CountersNext, CoreResult, Stamped;
      EndsOnce(c, Next(c, s, es[0]), es[1..], h);
    }
  }

  /** The step that ended the wait: the channel, with the time measured then, or the clock. */
  lemma {:induction false} EndedBy(c: Config, s: State, es: seq<Event>, h: nat) returns (i: nat)
    requires CanRun(c, s, es) && (h < |s.handlers| ==> !s.handlers[h].pc.Ending?)
    requires h < |Run(c, s, es).handlers| && Run(c, s, es).handlers[h].pc.Ending?
    ensures i < |es|
    ensures var pc := Run(c, s, es).handlers[h].pc;
            es[i] == if pc.received.TimedOut? then Expire(h) else Wake(h, pc.latency)
    decreases |es|
  {
    hide CountersNext, CoreResult, Stamped;
    var u := Next(c, s, es[0]);
    if h < |u.handlers| && u.handlers[h].pc.Ending? {
      i := 0;
      EndsOnce(c, u, es[1..], h);
    } else {
      var later := EndedBy(c, u, es[1..], h);
      i := later + 1;
    }
  }

  lemma StampedCarries(call: Call, id: string)
    ensures Carries(call, id, Stamped(call, id))
  {
  }

  lemma TimeoutLatency(c: Config, es: seq<Event>, h: nat)
    requires CanRun(c, Init(c), es) && h < |Run(c, Init(c), es).handlers|
    ensures var pc := Run(c, Init(c), es).handlers[h].pc;
            pc.Ending? && pc.received.TimedOut? ==> pc.latency == 1000 * c.timeoutSecs
  {
    InitHolds(c);
    RunKeeps(c, Init(c), es);
    assert HandlerOk(c, Run(c, Init(c), es), h);
  }
}

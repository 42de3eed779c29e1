/** src/main.rs `infer_handler` beside src/grpc.rs `infer`: what the two front ends do with the same request. */
module FrontEnds {
  import opened Wrappers
  import opened Messages
  import opened Gateway
  import opened Drivers
  import M = Metrics

  /** The gRPC call with the content of an HTTP call. */
  function AsGrpc(call: Call): Call {
    match call
    case Http(header, payload) => Grpc(ProtoRequest(payload.model, payload.input, payload.options, header.GetOr("")))
    case Grpc(_) => call
  }

  function EventViaGrpc(e: Event): Event { if e.Arrive? then Arrive(AsGrpc(e.call)) else e }

  function RunViaGrpc(es: seq<Event>): seq<Event> {
    if es == [] then [] else [EventViaGrpc(es[0])] + RunViaGrpc(es[1..])
  }

  /** A UUID in canonical form is never the empty string. */
  predicate HeaderSane(call: Call) { call.Http? ==> call.uuidHeader != Some("") }

  predicate ArrivalSane(e: Event) { e.Arrive? ==> HeaderSane(e.call) }

  function HttpStatus(code: GrpcCode): nat {
    match code
    case Ok => 200
    case InvalidArgument => 400
    case Unavailable => 503
    case Internal => 500
    case DeadlineExceeded => 504
  }

  /** End statuses correspond; error texts are equal; a success differs only in the id, which the HTTP front
      end overwrites, and in the latency, which the gRPC one cuts to 64 bits. */
  predicate SameAnswer(id: string, http: Answer, grpc: Answer) {
    && http.HttpAnswer? && grpc.GrpcAnswer?
    && http.status == HttpStatus(grpc.code)
    && http.idHeader == (if http.status == 400 then None else Some(id))
    && (http.payload.Response? <==> grpc.payload.Response?)
    && (grpc.code.InvalidArgument? || grpc.code.Internal? ==> http.payload.Message? && grpc.payload == http.payload)
    && (http.payload.Response? ==>
          var mine, theirs := http.payload.response, grpc.payload.response;
          && mine == theirs.(requestId := id, latencyMs := mine.latencyMs)
          && theirs.latencyMs == mine.latencyMs % 0x1_0000_0000_0000_0000)
  }

  lemma StatusesAreDistinct(a: GrpcCode, b: GrpcCode)
    ensures HttpStatus(a) == HttpStatus(b) <==> a == b
  {
  }

  predicate TwinPoints(id: string, p: Point, q: Point) {
    match p
    case Recording(arm, latency, stage) =>
      && q.Recording? && q.latency == latency && q.stage == stage
      && q.arm.outcome == arm.outcome && SameAnswer(id, arm.reply, q.arm.reply)
    case Returned(reply) => q.Returned? && SameAnswer(id, reply, q.reply)
    case _ => p == q
  }

  predicate Twins(a: Task, b: Task) {
    && HeaderSane(a.call) && b.call == AsGrpc(a.call) && a.requestId == b.requestId
    && if a.call.Grpc? then a == b else TwinPoints(a.requestId, a.point, b.point)
  }

  /** The two systems agree on queue, permits, counters, running jobs and channels, and their tasks are
      twins. */
  ghost predicate TwinSystems(y: System, z: System) {
    && SystemOk(y) && SystemOk(z)
    && |y.tasks| == |z.tasks| && y.slots == z.slots && y.rest == z.rest
    && forall h | 0 <= h < |y.tasks| :: Twins(y.tasks[h], z.tasks[h])
  }

  predicate SameEffect(call: Call, mine: Option<Effect>, theirs: Option<Effect>) {
    && (mine.Some? <==> theirs.Some?)
    && (mine.Some? ==>
          && mine.value.counters == theirs.value.counters && mine.value.sent == theirs.value.sent
          && Twins(Task(call, mine.value.requestId, mine.value.point),
                   Task(AsGrpc(call), theirs.value.requestId, theirs.value.point)))
  }

  lemma TwinRefusal(a: Task, b: Task, e: Event, view: View, m: M.Counters)
    requires Twins(a, b) && (a.point.NoteInvalid? || a.point.NoteFull?)
    ensures SameEffect(a.call, TaskStep(a, e, view, m), TaskStep(b, e, view, m))
  {
    hide M.CountInvalid, M.CountQueueFull, Recorded, HttpArm, GrpcArm, ProtoToRequest;
  }

  lemma TwinAwait(a: Task, b: Task, e: Event, view: View, m: M.Counters)
    requires Twins(a, b) && a.point.AwaitReply?
    ensures SameEffect(a.call, TaskStep(a, e, view, m), TaskStep(b, e, view, m))
  {
    hide Recorded, HttpRefusal, GrpcRefusal, ProtoToRequest;
  }

  lemma TwinRecording(a: Task, b: Task, e: Event, view: View, m: M.Counters)
    requires Twins(a, b) && a.point.Recording?
    ensures SameEffect(a.call, TaskStep(a, e, view, m), TaskStep(b, e, view, m))
  {
    hide M.FinishStage, SameAnswer, HttpRefusal, GrpcRefusal, HttpArm, GrpcArm, ProtoToRequest;
  }

  lemma TwinAdmission(a: Task, b: Task, e: Event, view: View, m: M.Counters)
    requires Twins(a, b)
    requires a.point.Entry? || a.point.Enqueue? || a.point.BeginTotal? || a.point.BeginInFlight?
    ensures SameEffect(a.call, TaskStep(a, e, view, m), TaskStep(b, e, view, m))
  {
    hide M.CountRequest, M.EnterFlight, Recorded, SameAnswer, HttpRefusal, GrpcRefusal, HttpArm, GrpcArm;
  }

  /** One action of `infer_handler` and the same action of `infer`. */
  lemma TwinStep(a: Task, b: Task, e: Event, view: View, m: M.Counters)
    requires Twins(a, b)
    ensures SameEffect(a.call, TaskStep(a, e, view, m), TaskStep(b, e, view, m))
  {
    hide SameAnswer, Recorded, HttpRefusal, GrpcRefusal, HttpArm, GrpcArm, ProtoToRequest;
    match a.point {
      case NoteInvalid => TwinRefusal(a, b, e, view, m);
      case NoteFull => TwinRefusal(a, b, e, view, m);
      case AwaitReply => TwinAwait(a, b, e, view, m);
      case Recording(_, _, _) => TwinRecording(a, b, e, view, m);
      case Returned(_) =>
      case Dropped =>
      case _ => TwinAdmission(a, b, e, view, m);
    }
  }

  lemma TwinUpdate(y: System, z: System, h: nat, mine: Effect, theirs: Effect)
    requires TwinSystems(y, z) && h < |y.tasks|
    requires SameEffect(y.tasks[h].call, Some(mine), Some(theirs))
    ensures TwinSystems(AfterTask(y, h, mine), AfterTask(z, h, theirs))
  {
    assert Twins(y.tasks[h], z.tasks[h]);
    hide TwinPoints;
  }

  lemma TwinTaskStep(c: Config, y: System, z: System, e: Event)
    requires TwinSystems(y, z) && IsHandlerEvent(e)
    ensures SystemEnabled(c, y, e) <==> SystemEnabled(c, z, e)
    ensures SystemEnabled(c, y, e) ==> TwinSystems(SystemNext(c, y, e), SystemNext(c, z, e))
  {
    if e.h < |y.tasks| {
      hide TaskStep, Twins, AfterTask;
      TwinStep(y.tasks[e.h], z.tasks[e.h], e, View(c.timeoutSecs, |y.rest.queue| < c.capacity, y.slots[e.h]),
               y.rest.counters);
      if SystemEnabled(c, y, e) {
        TwinUpdate(y, z, e.h, EffectOf(c, y, e).value, EffectOf(c, z, e).value);
      }
    }
  }

  lemma TwinAnswer(c: Config, y: System, z: System, e: Event)
    requires TwinSystems(y, z) && (e.Complete? || e.Abort?)
    ensures SystemEnabled(c, y, e) <==> SystemEnabled(c, z, e)
    ensures SystemEnabled(c, y, e) ==> TwinSystems(SystemNext(c, y, e), SystemNext(c, z, e))
  {
    if e.job.owner < |y.tasks| {
      assert Twins(y.tasks[e.job.owner], z.tasks[e.job.owner]);
      assert Receiving(y.tasks[e.job.owner]) <==> Receiving(z.tasks[e.job.owner]);
      hide Twins, CoreResult;
    }
  }

  lemma TwinSystemStep(c: Config, y: System, z: System, e: Event)
    requires TwinSystems(y, z) && ArrivalSane(e)
    ensures SystemEnabled(c, y, e) <==> SystemEnabled(c, z, EventViaGrpc(e))
    ensures SystemEnabled(c, y, e) ==> TwinSystems(SystemNext(c, y, e), SystemNext(c, z, EventViaGrpc(e)))
  {
    if IsHandlerEvent(e) {
      TwinTaskStep(c, y, z, e);
    } else if e.Complete? || e.Abort? {
      TwinAnswer(c, y, z, e);
    }
  }

  lemma {:induction false} TwinRuns(c: Config, y: System, z: System, es: seq<Event>)
    requires TwinSystems(y, z) && forall i | 0 <= i < |es| :: ArrivalSane(es[i])
    ensures SystemCanRun(c, y, es) <==> SystemCanRun(c, z, RunViaGrpc(es))
    ensures SystemCanRun(c, y, es) ==> TwinSystems(SystemRun(c, y, es), SystemRun(c, z, RunViaGrpc(es)))
    decreases |es|
  {
    if es != [] {
      hide SystemNext, SystemEnabled, TwinSystems;
      TwinSystemStep(c, y, z, es[0]);
      assert RunViaGrpc(es)[1..] == RunViaGrpc(es[1..]);
      if SystemEnabled(c, y, es[0]) {
        TwinRuns(c, SystemNext(c, y, es[0]), SystemNext(c, z, EventViaGrpc(es[0])), es[1..]);
      }
    }
  }

  /** The front ends are interchangeable: a run with HTTP calls is possible exactly when the run with the gRPC
      calls of the same content is, and both end with the same queue, permits, counters, running jobs,
      channels and resolved ids, and with corresponding answers. */
  lemma FrontEndsInterchangeable(c: Config, es: seq<Event>)
    requires forall i | 0 <= i < |es| :: ArrivalSane(es[i])
    ensures SystemCanRun(c, Boot(c), es) <==> SystemCanRun(c, Boot(c), RunViaGrpc(es))
    ensures SystemCanRun(c, Boot(c), es) ==>
              TwinSystems(SystemRun(c, Boot(c), es), SystemRun(c, Boot(c), RunViaGrpc(es)))
  {
    TwinRuns(c, Boot(c), Boot(c), es);
  }
}

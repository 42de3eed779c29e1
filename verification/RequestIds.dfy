/** Which request id a client gets back. */
module RequestIds {
  import opened Wrappers
  import opened Messages
  import opened Gateway
  import opened Drivers
  import opened GatewayInvariants
  import opened Scenarios
  import M = Metrics

  // How an id is resolved.

  /** Turned away, or about to be, because the model is unknown. */
  predicate Doomed(pc: Pc) { (pc.Turning? || pc.Refused?) && pc.why.UnknownModel? }

  lemma {:induction false} ResolvedOnce(c: Config, s: State, es: seq<Event>, h: nat)
    requires CanRun(c, s, es) && h < |s.handlers| && !s.handlers[h].pc.Arrived?
    ensures var t := Run(c, s, es);
            && h < |t.handlers| && t.handlers[h].call == s.handlers[h].call && t.handlers[h].id == s.handlers[h].id
            && (Doomed(t.handlers[h].pc) <==> Doomed(s.handlers[h].pc)) && !t.handlers[h].pc.Arrived?
    decreases |es|
  {
    if es != [] {
      hide CountersNext, CoreResult, Stamped;
      ResolvedOnce(c, Next(c, s, es[0]), es[1..], h);
    }
  }

  /** An HTTP client's UUID header or a gRPC client's non-empty id wins over the minted one. */
  predicate Resolves(call: Call, minted: string, id: string) {
    match call
    case Http(Some(uuid), _) => id == uuid
    case Http(None, _) => id == minted
    case Grpc(message) => if message.requestId == "" then id == minted else id == message.requestId
  }

  /** Over any run, an admitted handler's id was resolved by its one validation. */
  lemma {:induction false} IdResolved(c: Config, s: State, es: seq<Event>, h: nat) returns (i: nat)
    requires CanRun(c, s, es) && (h < |s.handlers| ==> s.handlers[h].pc.Arrived?)
    requires var t := Run(c, s, es);
             h < |t.handlers| && !t.handlers[h].pc.Arrived? && !Doomed(t.handlers[h].pc)
    ensures i < |es| && es[i].Validate? && es[i].h == h && es[i].known
    ensures Resolves(Run(c, s, es).handlers[h].call, es[i].minted, Run(c, s, es).handlers[h].id)
    decreases |es|
  {
    hide CountersNext, CoreResult, Stamped;
    var u := Next(c, s, es[0]);
    if h < |u.handlers| && !u.handlers[h].pc.Arrived? {
      i := 0;
      ResolvedOnce(c, u, es[1..], h);
    } else {
      var later := IdResolved(c, u, es[1..], h);
      i := later + 1;
    }
  }

  // Which id comes back.

  ghost predicate Succeeded(handler: Handler) {
    handler.pc.Ending? && handler.pc.stage == M.FINISH_STAGES
    && handler.pc.received.Answered? && handler.pc.received.result.Success?
  }

  function CoreResponse(handler: Handler): InferResponse
    requires Succeeded(handler)
  {
    handler.pc.received.result.response
  }

  function ModelOf(call: Call): string {
    match call
    case Http(_, payload) => payload.model
    case Grpc(message) => message.model
  }

  /** Every successful answer carries a response; its id is the one resolved at admission for HTTP in both
      protocols, which also puts it in the header, and for gRPC in llama-chat mode; otherwise it is the id the
      core named. The id resolved is the client's own whenever the client supplied one. */
  lemma IdCorrelation(c: Config, s: State, h: nat)
    requires Reachable(c, s) && h < |s.handlers| && Succeeded(s.handlers[h])
    ensures var handler := s.handlers[h];
            var answer := AnswerOf(c, handler);
            && answer.Some? && answer.value.payload.Response?
            && answer.value.payload.response.requestId
               == (if handler.call.Http? || c.protocol.LlamaChat? then handler.id else CoreResponse(handler).requestId)
            && (handler.call.Http? ==> answer.value.idHeader == Some(handler.id))
            && (c.protocol.LlamaChat? ==> answer.value.payload.response.model == ModelOf(handler.call))
            && (SuppliedId(handler.call).Some? ==> handler.id == SuppliedId(handler.call).value)
  {
    Always(c, s);
    var handler := s.handlers[h];
    assert HandlerOk(c, s, h);
    var reply :| ReplyFits(c.protocol, reply)
                 && handler.pc.received.result == CoreResult(Stamped(handler.call, handler.id), reply);
    assert Stamped(handler.call, handler.id).requestId == Some(handler.id);
  }

  /** The promise that a gRPC answer mirrors the HTTP one fails with a core that names its own ids. */
  lemma GrpcLosesTheId(c: Config) returns (s: State)
    requires c.protocol.Infer?
    ensures Reachable(c, s) && |s.handlers| == 1 && Succeeded(s.handlers[0])
    ensures s.handlers[0].call.Grpc?
    ensures AnswerOf(c, s.handlers[0]).value.payload.response.requestId != s.handlers[0].id == "client-id"
  {
    var request := ProtoRequest("m", "i", None, "client-id");
    var job := Job(Stamped(Grpc(request), "client-id"), 0);
    ReachInit(c);
    s := Accept(c, Init(c), Grpc(request), "minted");
    s := Begin(c, s, 0);
    s := Advance(c, s, Receive);
    assert s.hand == Holding(job);
    s := Advance(c, s, Measure);
    s := Advance(c, s, Reconfigure);
    s := Advance(c, s, Spawn);
    s := Answered(c, s, job);
    s := FinishFully(c, s, 0);
  }

  lemma Answered(c: Config, s: State, job: Job) returns (t: State)
    requires c.protocol.Infer? && Reachable(c, s) && job in s.calling && job.owner == 0
    requires |s.handlers| == 1 && s.handlers[0].pc.Waiting?
    ensures Reachable(c, t)
    ensures t.handlers == [s.handlers[0].(pc := Ending(Received.Answered(Success(CPP_RESPONSE)), 7, 0),
                                          slot := Delivered(Success(CPP_RESPONSE)))]
  {
    t := Advance(c, s, Complete(job, InferBody(CPP_RESPONSE)));
    t := Advance(c, t, Wake(0, 7));
  }

  const CPP_RESPONSE := InferResponse("cpp-1", "m", "o", 5, 32, "ok")

  ghost predicate KeepsId(c: Config, handler: Handler) {
    var answer := AnswerOf(c, handler);
    answer.Some? && answer.value.payload.Response? && answer.value.payload.response.requestId == handler.id
  }

  /** The gRPC service always returns the id resolved at admission exactly when the core protocol is
      llama-chat. */
  lemma GrpcKeepsIdsExactlyWhen(c: Config)
    ensures (forall s, h | Reachable(c, s) && 0 <= h < |s.handlers| && s.handlers[h].call.Grpc?
                           && Succeeded(s.handlers[h]) :: KeepsId(c, s.handlers[h]))
            <==> c.protocol.LlamaChat?
  {
    if c.protocol.LlamaChat? {
      forall s, h | Reachable(c, s) && 0 <= h < |s.handlers| && s.handlers[h].call.Grpc? && Succeeded(s.handlers[h])
        ensures KeepsId(c, s.handlers[h])
      {
        IdCorrelation(c, s, h);
      }
    } else {
      var s := GrpcLosesTheId(c);
      assert !KeepsId(c, s.handlers[0]);
    }
  }
}

/** Wire types of src/main.rs and src/grpc.rs, and the conversions between them. */
module Messages {
  import opened Wrappers

  /** Floating-point options are carried as the text that serde_json prints for them; None
      stands for every value it prints as null, an absent one as well as NaN and the infinities. */
  datatype InferOptions = InferOptions(maxTokens: Option<nat>, temperature: Option<string>, topP: Option<string>)

  datatype InferRequest = InferRequest(
    model: string, input: string, options: Option<InferOptions>, requestId: Option<string>)

  datatype InferResponse = InferResponse(
    requestId: string, model: string, output: string, latencyMs: nat, tokens: nat, status: string)

  datatype JobResult = Success(response: InferResponse) | Failure(message: string)

  datatype ProtoRequest = ProtoRequest(
    model: string, input: string, options: Option<InferOptions>, requestId: string)

  const U64_RANGE := 0x1_0000_0000_0000_0000

  function ProtoToRequest(proto: ProtoRequest): (r: InferRequest)
    ensures r.requestId.None? <==> proto.requestId == ""
    ensures r.requestId.GetOr("") == proto.requestId
  {
    InferRequest(proto.model, proto.input, proto.options, if proto.requestId == "" then None else Some(proto.requestId))
  }

  /** The 128-bit latency is cut to 64 bits; every other field is copied. */
  function ResponseToProto(r: InferResponse): InferResponse {
    r.(latencyMs := r.latencyMs % U64_RANGE)
  }

  // Calls to the inference core.

  datatype CoreProtocol = Infer | LlamaChat

  /** The fields read from a llama-server chat completion; latencies are already truncated to whole ms. */
  datatype ChatReply = ChatReply(
    contents: seq<string>, usage: Option<ChatUsage>, timings: Option<ChatTimings>)
  datatype ChatUsage = ChatUsage(completionTokens: Option<nat>, totalTokens: Option<nat>)
  datatype ChatTimings = ChatTimings(predictedMs: Option<nat>, totalMs: Option<nat>)

  /** What a core call comes back with: a transport, status or decoding error, or a decoded body. */
  datatype CoreReply = CallFailed(message: string) | InferBody(response: InferResponse) | ChatBody(reply: ChatReply)

  predicate ReplyFits(protocol: CoreProtocol, reply: CoreReply) {
    match reply
    case CallFailed(_) => true
    case InferBody(_) => protocol.Infer?
    case ChatBody(_) => protocol.LlamaChat?
  }

  function OrElse(first: Option<nat>, second: Option<nat>): Option<nat> {
    if first.Some? then first else second
  }

  function ChatResponse(request: InferRequest, reply: ChatReply): InferResponse {
    var tokens := if reply.usage.None? then None
                  else OrElse(reply.usage.value.completionTokens, reply.usage.value.totalTokens);
    var latency := if reply.timings.None? then None
                   else OrElse(reply.timings.value.predictedMs, reply.timings.value.totalMs);
    InferResponse(request.requestId.GetOr(""), request.model, if reply.contents == [] then "" else reply.contents[0],
                  latency.GetOr(0), tokens.GetOr(0), "ok")
  }

  function CoreResult(request: InferRequest, reply: CoreReply): JobResult {
    match reply
    case CallFailed(message) => Failure(message)
    case InferBody(response) => Success(response)
    case ChatBody(chat) => Success(ChatResponse(request, chat))
  }
}

/** cpp_inference/inference_core.cpp, the POST /infer route: one connection from its bytes to its answer, and
    what a request of the gateway gets back through reader, parser, engine and decoder. */
module Service {
  import opened Wrappers
  import opened Text
  import opened Escaping
  import opened Decoding
  import opened FieldFinder
  import opened Messages
  import opened RoundTrip
  import opened HttpReader
  import opened CoreResponse

  datatype Served = Crashed | Replied(status: nat, payload: string)

  function ErrorJson(message: string, code: nat): string {
    "{\"status\":\"error\",\"message\":\"" + Escaped(CoreEscape, message) + "\",\"code\":" + Decimal(code) + "}"
  }

  /** The reply to what the reader returned; its exceptions, like the parser's, end the process. */
  function ReplyTo(stof: FloatParser, show: FloatPrinter, nowMs: nat, request: Option<string>): Served {
    if request.None? then Crashed
    else if request.value == "" then Replied(400, ErrorJson("empty request", 400))
    else
      match Find(request.value, TERMINATOR, 0)
      case None => Replied(400, ErrorJson("missing body", 400))
      case Some(h) =>
        match Parsed(stof, request.value[h + 4..])
        case None => Crashed
        case Some(q) => Replied(200, BuildInferenceJson(q, CpuResult(q, show), nowMs))
  }

  method HandleInfer(conn: Connection, stof: FloatParser, show: FloatPrinter, nowMs: nat) returns (served: Served)
    modifies conn
    ensures var stream, n := old(conn.incoming), PhaseOne(old(conn.incoming), old(conn.sizes));
            served == ReplyTo(stof, show, nowMs, Result(DeclaredLength, stream, n))
  {
    var request := ReadHttpRequest(conn);
    if request.None? {
      return Crashed;
    }
    if request.value == "" {
      return Replied(400, ErrorJson("empty request", 400));
    }
    var bodyStart := Find(request.value, TERMINATOR, 0);
    if bodyStart.None? {
      return Replied(400, ErrorJson("missing body", 400));
    }
    var details := ParseRequestBody(stof, request.value[bodyStart.value + 4..]);
    if details.None? {
      return Crashed;
    }
    served := Replied(200, BuildInferenceJson(details.value, CpuResult(details.value, show), nowMs));
  }

  // Replies to connections without a request.

  datatype ErrorBody = ErrorBody(message: string, code: nat)

  function ReadError(text: string): Option<ErrorBody> {
    var message :- ReadStringField(text, "{\"status\":\"error\",\"message\":\"", false);
    var code :- ReadNumberField(message.rest, ",\"code\":");
    if code.rest == "}" then Some(ErrorBody(message.value, code.value)) else None
  }

  lemma ErrorDecodes(message: string, code: nat)
    ensures ReadError(ErrorJson(message, code)) == Some(ErrorBody(message, code))
  {
    hide Escaped, Scan, ReadCount, Decimal;
    var lead, rest := "{\"status\":\"error\",\"message\":\"", NumberField(",\"code\":", Decimal(code), "}");
    NumberFieldReads(",\"code\":", code, "}");
    StringFieldReads(lead, message, rest, false);
    ErrorShape(lead, Escaped(CoreEscape, message), Decimal(code));
  }

  lemma ErrorShape(lead: string, escaped: string, digits: string)
    ensures lead + escaped + "\",\"code\":" + digits + "}"
         == StringField(lead, escaped, NumberField(",\"code\":", digits, "}"))
  {
    assert "\",\"code\":" == "\"" + ",\"code\":";
  }

  predicate Refuses(served: Served, message: string) {
    served.Replied? && served.status == 400 && ReadError(served.payload) == Some(ErrorBody(message, 400))
  }

  /** A connection that closes before its head is complete is told that the request is empty, when nothing
      came, or has no body. */
  lemma ClosedEarlyRefused(stof: FloatParser, show: FloatPrinter, nowMs: nat, stream: string, sizes: seq<nat>)
    requires Find(stream, "\r\n\r\n", 0).None? && |stream| <= 65536
    ensures var served := ReplyTo(stof, show, nowMs, Result(DeclaredLength, stream, PhaseOne(stream, sizes)));
            Refuses(served, if stream == "" then "empty request" else "missing body")
  {
    hide ReadError, ErrorJson, DeclaredLength, Result, PhaseOne, Parsed;
    ClosedEarlyReturned(DeclaredLength, stream, sizes);
    ErrorDecodes("empty request", 400);
    ErrorDecodes("missing body", 400);
  }

  /** A head whose length cannot be read ends the process. */
  lemma UnreadableLengthCrashes(stof: FloatParser, show: FloatPrinter, nowMs: nat, stream: string, h: nat,
                                sizes: seq<nat>)
    requires Find(stream, "\r\n\r\n", 0) == Some(h) && h + 4 <= 65537 && DeclaredLength(stream[..h]) == Malformed
    ensures ReplyTo(stof, show, nowMs, Result(DeclaredLength, stream, PhaseOne(stream, sizes))).Crashed?
  {
    hide Result, PhaseOne, DeclaredLength, Parsed, ErrorJson;
    UnreadableLengthThrows(stream, h, sizes);
  }

  /** A header block whose length line tells the truth and whose first terminator is its own. */
  ghost predicate Announces(before: string, tail: string, body: string) {
    var head := HeadWithLength(before, " ", |body|, "", tail);
    && Find(before, "Content-Length:", 0).None? && |body| < 0x1_0000_0000_0000_0000 && LineEnds(tail)
    && Find(head + "\r\n\r\n", "\r\n\r\n", 0) == Some(|head|) && |head| + 4 <= 65537
  }

  function Message(before: string, tail: string, body: string): string {
    HeadWithLength(before, " ", |body|, "", tail) + "\r\n\r\n" + body
  }

  /** The core works on exactly the body that was posted. */
  lemma BodyReachesParser(stof: FloatParser, show: FloatPrinter, nowMs: nat,
                          before: string, tail: string, body: string, sizes: seq<nat>)
    requires Announces(before, tail, body)
    ensures var stream := Message(before, tail, body);
            ReplyTo(stof, show, nowMs, Result(DeclaredLength, stream, PhaseOne(stream, sizes)))
              == match Parsed(stof, body)
                 case None => Crashed
                 case Some(q) => Replied(200, BuildInferenceJson(q, CpuResult(q, show), nowMs))
  {
    hide Parsed, BuildInferenceJson, CpuResult, Result, PhaseOne, HeadWithLength;
    var head := HeadWithLength(before, " ", |body|, "", tail);
    var stream := Message(before, tail, body);
    MessageReturned(before, " ", "", tail, body, sizes);
    assert stream[..|head| + 4] == head + TERMINATOR;
    PrefixFind(stream, TERMINATOR, |head| + 4);
    assert stream[|head| + 4..] == body;
  }

  /** The numbers of a request convert. */
  ghost predicate Convertible(stof: FloatParser, r: InferRequest) {
    SentCount(r).GetOr(0) < 0x8000_0000 && Readable(stof, SentTemperature(r)) && Readable(stof, SentTopP(r))
  }

  /** A request of the gateway behind any header block with one true Content-Length line, cut into pieces in
      any way: the core crashes exactly when the numbers do not convert; otherwise it answers 200, the
      gateway's strict decoder reads the answer, the input the core worked on can be read from it, and
      model and input are those of the request exactly when they are non-empty and need no escaping. */
  lemma GatewayRequestServed(stof: FloatParser, show: FloatPrinter, r: InferRequest, nowMs: nat,
                             before: string, tail: string, sizes: seq<nat>) returns (response: Option<InferResponse>)
    requires Sendable(r) && PrintsTame(show) && Announces(before, tail, Body(r))
    ensures response.Some? <==> Convertible(stof, r)
    ensures var stream := Message(before, tail, Body(r));
            var served := ReplyTo(stof, show, nowMs, Result(DeclaredLength, stream, PhaseOne(stream, sizes)));
            if response.None? then served.Crashed?
            else served.Replied? && served.status == 200 && ReadResponse(served.payload, true) == response
    ensures response.Some? ==>
              && InputSeenBy(response.value).Some? && response.value.requestId == "cpp-" + Decimal(nowMs)
              && (response.value.model == r.model <==> r.model != "" && AllPlain(r.model))
              && (InputSeenBy(response.value) == Some(r.input) <==> r.input != "" && AllPlain(r.input))
  {
    hide Parsed, Body, BuildInferenceJson, CpuResult, Result, PhaseOne, ReplyTo, Message, ReadResponse, Announces;
    BodyReachesParser(stof, show, nowMs, before, tail, Body(r), sizes);
    RequestSurvivesExactlyWhen(stof, r);
    response := None;
    if Parsed(stof, Body(r)).Some? {
      var q, decoded := WholeWayRound(stof, show, r, nowMs);
      response := Some(decoded);
    }
  }
}

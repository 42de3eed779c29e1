/** The core's answer: how it is built, that the gateway decodes it, and what a whole round trip through
    serialiser, finder, escaper and decoder preserves. */
module CoreResponse {
  import opened Wrappers
  import opened Text
  import opened Escaping
  import opened Decoding
  import opened FieldFinder
  import opened Messages
  import opened RoundTrip

  // The core's side.

  /** `toupper` of the C locale. */
  function Upper(text: string): string {
    seq(|text|, i requires 0 <= i < |text| => UpperChar(text[i]))
  }

  function UpperChar(c: char): char {
    if 'a' <= c <= 'z' then (c as int - 'a' as int + 'A' as int) as char else c
  }

  function IntText(n: int): string { if n < 0 then "-" + Decimal(-n) else Decimal(n) }

  /** How iostreams print a float, which is not part of this model. */
  type FloatPrinter = real -> string

  // The four parts of the CPU path's output.

  function Opening(model: string): string { "C++ CPU inference result for model=" + model + " input=" }

  function Settings(q: CoreRequest, show: FloatPrinter): string {
    " tokens=" + IntText(q.maxTokens) + " temperature=" + show(q.temperature) + " top_p=" + show(q.topP)
  }

  const NORMALIZED := " normalized="

  function CpuResult(q: CoreRequest, show: FloatPrinter): string {
    Opening(q.model) + (Escaped(CoreEscape, q.input)
      + (Settings(q, show) + (NORMALIZED + Escaped(CoreEscape, Upper(q.input)))))
  }

  function RequestId(nowMs: nat): string { "cpp-" + Decimal(nowMs) }

  // The part of the answer after the three strings, from its end.

  function StatusPart(): string { StringField("},\"status\":\"", "ok", "}") }

  function TokensPart(tokens: string): string { NumberField(",\"tokens\":", tokens, StatusPart()) }

  function UsagePart(tokens: string): string { NumberField(",\"usage\":{\"latency_ms\":", "5", TokensPart(tokens)) }

  function BuildInferenceJson(q: CoreRequest, output: string, nowMs: nat): string {
    StringField("{\"request_id\":\"", RequestId(nowMs),
      StringField(",\"model\":\"", Escaped(CoreEscape, q.model),
        StringField(",\"output\":\"", Escaped(CoreEscape, output),
          UsagePart(IntText(q.maxTokens)))))
  }

  // The gateway's side: a decoder for an object with these fields in this order.

  function ReadResponse(text: string, strict: bool): Option<InferResponse> {
    var id :- ReadStringField(text, "{\"request_id\":\"", strict);
    var model :- ReadStringField(id.rest, ",\"model\":\"", strict);
    var output :- ReadStringField(model.rest, ",\"output\":\"", strict);
    var latency :- ReadNumberField(output.rest, ",\"usage\":{\"latency_ms\":");
    var tokens :- ReadNumberField(latency.rest, ",\"tokens\":");
    var status :- ReadStringField(tokens.rest, "},\"status\":\"", strict);
    if status.rest == "}"
    then Some(InferResponse(id.value, model.value, output.value, latency.value, tokens.value, status.value))
    else None
  }

  lemma {:induction false} StringFieldReads(lead: string, s: string, rest: string, strict: bool)
    ensures ReadStringField(StringField(lead, Escaped(CoreEscape, s), rest), lead, strict)
         == if !strict || AllTame(s) then Some(Scanned(s, rest)) else None
  {
    ExpectReads(lead, Escaped(CoreEscape, s) + "\"" + rest);
    CoreDecodesStrictly(s, rest);
    CoreDecodes(s, rest);
  }

  lemma {:induction false} CopiedWhole(s: string)
    requires forall i | 0 <= i < |s| :: CoreEscape(s[i]) == [s[i]]
    ensures Escaped(CoreEscape, s) == s
  {
    if s != "" {
      CopiedWhole(s[1..]);
      assert [s[0]] + s[1..] == s;
    }
  }

  lemma RequestIdCopied(nowMs: nat)
    ensures Escaped(CoreEscape, RequestId(nowMs)) == RequestId(nowMs) && AllTame(RequestId(nowMs))
  {
    var id := RequestId(nowMs);
    forall i | 0 <= i < |id|
      ensures CoreEscape(id[i]) == [id[i]] && Tame(id[i])
    {
      if i >= 4 {
        assert id[i] == Decimal(nowMs)[i - 4] && Decimal(nowMs)[i - 4] in Decimal(nowMs);
      }
    }
    CopiedWhole(id);
  }

  lemma StatusReads(strict: bool)
    ensures ReadStringField(StatusPart(), "},\"status\":\"", strict) == Some(Scanned("ok", "}"))
    ensures StatusPart() != "" && StatusPart()[0] == '}'
  {
    CopiedWhole("ok");
    StringFieldReads("},\"status\":\"", "ok", "}", strict);
  }

  lemma TokensRead(n: nat)
    ensures ReadNumberField(TokensPart(Decimal(n)), ",\"tokens\":") == Some(Counted(n, StatusPart()))
    ensures TokensPart(Decimal(n)) != "" && TokensPart(Decimal(n))[0] == ','
  {
    StatusReads(true);
    NumberFieldReads(",\"tokens\":", n, StatusPart());
  }

  lemma UsageReads(n: nat)
    ensures ReadNumberField(UsagePart(Decimal(n)), ",\"usage\":{\"latency_ms\":")
        == Some(Counted(5, TokensPart(Decimal(n))))
  {
    TokensRead(n);
    assert Decimal(5) == "5";
    NumberFieldReads(",\"usage\":{\"latency_ms\":", 5, TokensPart(Decimal(n)));
  }

  /** The answer decodes to exactly the id, model, output and token count it was built from; a strict
      decoder refuses it exactly when the model or the output holds a control character the core copies. */
  lemma ResponseDecodes(q: CoreRequest, output: string, nowMs: nat, strict: bool)
    requires q.maxTokens >= 0
    ensures ReadResponse(BuildInferenceJson(q, output, nowMs), strict)
         == if !strict || (AllTame(q.model) && AllTame(output))
            then Some(InferResponse("cpp-" + Decimal(nowMs), q.model, output, 5, q.maxTokens, "ok"))
            else None
  {
    var tail := UsagePart(Decimal(q.maxTokens));
    var fromOutput := StringField(",\"output\":\"", Escaped(CoreEscape, output), tail);
    var fromModel := StringField(",\"model\":\"", Escaped(CoreEscape, q.model), fromOutput);
    RequestIdCopied(nowMs);
    StringFieldReads("{\"request_id\":\"", RequestId(nowMs), fromModel, strict);
    StringFieldReads(",\"model\":\"", q.model, fromOutput, strict);
    StringFieldReads(",\"output\":\"", output, tail, strict);
    UsageReads(q.maxTokens);
    TokensRead(q.maxTokens);
    StatusReads(strict);
  }

  // The input inside the output.

  /** Reads the input back out of an output for `model`. Nothing marks the end of the input and the settings
      may hold any text, but the upper-cased copy after the last caption is as long as the input's text. */
  function RecoveredInput(model: string, output: string): Option<string> {
    var content :- Expect(output, Opening(model));
    var caption :- FindLast(output, NORMALIZED, |output|);
    var length := |output| - (caption + |NORMALIZED|);
    if length > |content| then None
    else
      var scanned :- Scan(content[..length] + "\"", false);
      Some(scanned.value)
  }

  /** Upper-casing keeps the length of every escape and leaves no `o`, so no caption, behind. */
  lemma {:induction false} UpperEscape(s: string)
    ensures |Escaped(CoreEscape, Upper(s))| == |Escaped(CoreEscape, s)|
    ensures 'o' !in Escaped(CoreEscape, Upper(s))
  {
    if s != "" {
      UpperEscape(s[1..]);
      assert Upper(s)[1..] == Upper(s[1..]);
    }
  }

  lemma LastCaption(before: string, after: string)
    requires 'o' !in after
    ensures var text := before + (NORMALIZED + after);
            FindLast(text, NORMALIZED, |text|) == Some(|before|)
  {
    var text := before + (NORMALIZED + after);
    forall i | |before| < i <= |text|
      ensures !OccursAt(text, NORMALIZED, i)
    {
      assert NORMALIZED[2] == 'o';
      Mismatch(text, NORMALIZED, i, 2);
    }
    FindLastIs(text, NORMALIZED, |text|, |before|);
  }

  lemma CaptionFound(q: CoreRequest, show: FloatPrinter)
    ensures FindLast(CpuResult(q, show), " normalized=", |CpuResult(q, show)|)
         == Some(|Opening(q.model) + (Escaped(CoreEscape, q.input) + Settings(q, show))|)
  {
    var upper := Escaped(CoreEscape, Upper(q.input));
    var before := Opening(q.model) + (Escaped(CoreEscape, q.input) + Settings(q, show));
    UpperEscape(q.input);
    assert CpuResult(q, show) == before + (NORMALIZED + upper);
    LastCaption(before, upper);
  }

  /** Decoding the output's input field recovers the input, whatever the input, the model and the printed
      settings contain; the model it needs is in the same answer. */
  lemma InputRecovered(q: CoreRequest, show: FloatPrinter)
    ensures RecoveredInput(q.model, CpuResult(q, show)) == Some(q.input)
  {
    var escaped, upper := Escaped(CoreEscape, q.input), Escaped(CoreEscape, Upper(q.input));
    var rest := Settings(q, show) + (NORMALIZED + upper);
    ExpectReads(Opening(q.model), escaped + rest);
    UpperEscape(q.input);
    CaptionFound(q, show);
    assert (escaped + rest)[..|escaped|] == escaped;
    CoreDecodes(q.input, "");
    assert escaped + "\"" == escaped + "\"" + "";
  }

  /** Reads the text after the last caption of an output. */
  function NormalizedInput(output: string): Option<string> {
    var caption :- FindLast(output, " normalized=", |output|);
    var scanned :- Scan(output[caption + 12..] + "\"", false);
    Some(scanned.value)
  }

  /** The inference itself: the text after the last caption is the input with its ASCII letters in upper case
      and every other character as it was. */
  lemma NormalizedIsUpperCase(q: CoreRequest, show: FloatPrinter)
    ensures var text := NormalizedInput(CpuResult(q, show));
            && text.Some? && |text.value| == |q.input|
            && forall i | 0 <= i < |q.input| ::
                 text.value[i] as int
                   == q.input[i] as int - if 'a' <= q.input[i] <= 'z' then 32 else 0
  {
    hide Escaped, Scan, Settings, Opening, FindLast;
    var escaped, upper := Escaped(CoreEscape, q.input), Escaped(CoreEscape, Upper(q.input));
    CaptionFound(q, show);
    AfterCaption(Opening(q.model), escaped, Settings(q, show), upper);
    CoreDecodes(Upper(q.input), "");
    assert upper + "\"" == upper + "\"" + "";
  }

  lemma AfterCaption(opening: string, escaped: string, settings: string, upper: string)
    ensures (opening + (escaped + (settings + (NORMALIZED + upper))))[|opening + (escaped + settings)| + 12..] == upper
  {
  }

  /** Before the caption stand the settings the core used: the count as a number, the floats as printed. */
  lemma SettingsShown(q: CoreRequest, show: FloatPrinter) returns (count: string)
    ensures SignedPrefix(count) == Some(q.maxTokens)
    ensures CpuResult(q, show)
         == "C++ CPU inference result for model=" + q.model + " input=" + Escaped(CoreEscape, q.input)
            + " tokens=" + count + " temperature=" + show(q.temperature) + " top_p=" + show(q.topP)
            + " normalized=" + Escaped(CoreEscape, Upper(q.input))
  {
    count := IntText(q.maxTokens);
    IntTextConverts(q.maxTokens);
    hide Escaped, Upper, IntText, SignedPrefix;
    FlatParts(Opening(q.model), Escaped(CoreEscape, q.input), Settings(q, show), NORMALIZED,
              Escaped(CoreEscape, Upper(q.input)));
    FlatSettings(Opening(q.model) + Escaped(CoreEscape, q.input), " tokens=", count, " temperature=",
                 show(q.temperature), " top_p=", show(q.topP));
  }

  lemma FlatParts(a: string, b: string, c: string, d: string, e: string)
    ensures a + (b + (c + (d + e))) == a + b + c + d + e
  {
  }

  lemma FlatSettings(before: string, a: string, b: string, c: string, d: string, e: string, f: string)
    ensures before + (a + b + c + d + e + f) == before + a + b + c + d + e + f
  {
  }

  lemma IntTextConverts(n: int)
    ensures SignedPrefix(IntText(n)) == Some(n)
  {
    hide SignedPrefix, Value;
    if n < 0 {
      SignedDigits("-", -n);
    } else {
      SignedDigits("", n);
      assert "" + Decimal(n) == Decimal(n);
    }
  }

  lemma SignedDigits(sign: string, n: nat)
    requires sign == "" || sign == "-"
    ensures SignedPrefix(sign + Decimal(n)) == Some(if sign == "-" then -(n as int) else n)
  {
    hide SignedPrefix, Value;
    var digits := Decimal(n);
    assert NumberParts("", sign, digits, "") by {
      assert forall i | 0 <= i < |digits| :: digits[i] in digits;
    }
    hide NumberParts, Decimal;
    SignedPrefixReads("", sign, digits, "");
    assert "" + sign + digits + "" == sign + digits;
  }

  // The whole way round.

  lemma {:induction false} EscapingKeepsTame(s: string)
    requires AllTame(s)
    ensures AllTame(Escaped(CoreEscape, s))
  {
    if s != "" {
      EscapingKeepsTame(s[1..]);
      Joined(CoreEscape(s[0]), Escaped(CoreEscape, s[1..]));
    }
  }

  lemma SurvivingIsTame(s: string)
    ensures AllTame(Surviving(s))
  {
    SerdeShape(s);
    UpToQuoteShape(Escaped(SerdeEscape, s));
  }

  lemma DecimalIsTame(n: nat)
    ensures AllTame(Decimal(n))
  {
    assert forall i | 0 <= i < |Decimal(n)| :: Decimal(n)[i] in Decimal(n);
  }

  lemma AppendTame(text: string, caption: string, value: string)
    requires AllTame(text) && AllTame(caption) && AllTame(value)
    ensures AllTame(text + caption + value)
  {
  }

  lemma LabelsTame()
    ensures AllTame("C++ CPU inference result for model=") && AllTame(" input=") && AllTame(" tokens=")
    ensures AllTame(" temperature=") && AllTame(" top_p=") && AllTame(" normalized=")
  {
  }

  ghost predicate PrintsTame(show: FloatPrinter) { forall x :: AllTame(show(x)) }

  lemma SettingsTame(q: CoreRequest, show: FloatPrinter)
    requires PrintsTame(show) && q.maxTokens >= 0
    ensures AllTame(Settings(q, show))
  {
    LabelsTame();
    DecimalIsTame(q.maxTokens);
    var tokens := " tokens=" + IntText(q.maxTokens);
    AppendTame(tokens, " temperature=", show(q.temperature));
    AppendTame(tokens + " temperature=" + show(q.temperature), " top_p=", show(q.topP));
  }

  lemma ResultIsTame(q: CoreRequest, show: FloatPrinter)
    requires AllTame(q.model) && AllTame(q.input) && PrintsTame(show) && q.maxTokens >= 0
    ensures AllTame(CpuResult(q, show))
  {
    LabelsTame();
    EscapingKeepsTame(q.input);
    assert AllTame(Upper(q.input));
    EscapingKeepsTame(Upper(q.input));
    SettingsTame(q, show);
    AppendTame("C++ CPU inference result for model=", q.model, " input=");
    assert AllTame(Opening(q.model));
    var ending := NORMALIZED + Escaped(CoreEscape, Upper(q.input));
    assert AllTame(ending) && AllTame(Settings(q, show) + ending);
    assert AllTame(Escaped(CoreEscape, q.input) + (Settings(q, show) + ending));
  }

  lemma DefaultsTame()
    ensures AllTame("llama-7b") && AllTame("hello world")
  {
  }

  lemma ServedFields(stof: FloatParser, r: InferRequest) returns (q: CoreRequest)
    requires Sendable(r) && Parsed(stof, Body(r)).Some?
    ensures Parsed(stof, Body(r)) == Some(q)
    ensures q.maxTokens == (if SentCount(r).GetOr(0) == 0 then 32 else SentCount(r).value)
    ensures q.model == NonEmptyOr(Surviving(r.model), "llama-7b")
        && q.input == NonEmptyOr(Surviving(r.input), "hello world")
  {
    ParsedBody(stof, r);
    q := Parsed(stof, Body(r)).value;
  }

  lemma ServedTame(r: InferRequest, q: CoreRequest)
    requires q.model == NonEmptyOr(Surviving(r.model), "llama-7b")
        && q.input == NonEmptyOr(Surviving(r.input), "hello world")
    ensures AllTame(q.model) && AllTame(q.input)
  {
    DefaultsTame();
    SurvivingIsTame(r.model);
    SurvivingIsTame(r.input);
  }

  /** What the client can make of an answer: the input the core worked on. */
  function InputSeenBy(response: InferResponse): Option<string> { RecoveredInput(response.model, response.output) }

  /** A request served by the C++ core over the legacy protocol: whatever its strings contain, the gateway's
      strict decoder accepts the answer; the id is the core's own; the token count is the requested one or
      32; the input the core worked on can be read from the answer; and model and input come back as they
      were sent exactly when they are non-empty and need no escaping. */
  lemma WholeWayRound(stof: FloatParser, show: FloatPrinter, r: InferRequest, nowMs: nat)
      returns (q: CoreRequest, response: InferResponse)
    requires Sendable(r) && Parsed(stof, Body(r)).Some? && PrintsTame(show)
    ensures Parsed(stof, Body(r)) == Some(q)
    ensures ReadResponse(BuildInferenceJson(q, CpuResult(q, show), nowMs), true) == Some(response)
    ensures response == InferResponse("cpp-" + Decimal(nowMs), q.model, CpuResult(q, show), 5,
                                      if SentCount(r).GetOr(0) == 0 then 32 else SentCount(r).value, "ok")
    ensures InputSeenBy(response) == Some(q.input)
    ensures response.model == r.model <==> r.model != "" && AllPlain(r.model)
    ensures InputSeenBy(response) == Some(r.input) <==> r.input != "" && AllPlain(r.input)
  {
    q := ServedFields(stof, r);
    ServedTame(r, q);
    ResultIsTame(q, show);
    RequestSurvivesExactlyWhen(stof, r);
    ResponseDecodes(q, CpuResult(q, show), nowMs, true);
    response := ReadResponse(BuildInferenceJson(q, CpuResult(q, show), nowMs), true).value;
    InputRecovered(q, show);
  }
}

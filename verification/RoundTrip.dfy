/** From the gateway's serialised request to the core's parsed request: what survives the substring
    search, for every request. */
module RoundTrip {
  import opened Wrappers
  import opened Text
  import opened Escaping
  import opened FieldFinder
  import opened NestedOptions
  import opened Messages

  // The gateway's side: compact JSON in field order.

  function CountOrNull(n: Option<nat>): string {
    match n
    case None => "null"
    case Some(v) => Decimal(v)
  }

  function Quoted(s: string): Token { Str(Escaped(SerdeEscape, s)) }

  function HeadTokens(r: InferRequest): seq<Token> {
    [Raw("{"), Key("model"), Quoted(r.model), Raw(","), Key("input"), Quoted(r.input), Raw(","), Key("options")]
  }

  function OptionTokens(options: Option<InferOptions>): seq<Token> {
    match options
    case None => [Raw("null,")]
    case Some(o) =>
      [Raw("{"), Key("max_tokens"), Raw(CountOrNull(o.maxTokens) + ","),
       Key("temperature"), Raw(o.temperature.GetOr("null") + ","),
       Key("top_p"), Raw(o.topP.GetOr("null") + "},")]
  }

  function IdTokens(id: Option<string>): seq<Token> {
    match id
    case None => [Key("request_id"), Raw("null}")]
    case Some(text) => [Key("request_id"), Quoted(text), Raw("}")]
  }

  function Tokens(r: InferRequest): seq<Token> { HeadTokens(r) + OptionTokens(r.options) + IdTokens(r.requestId) }

  /** What serde_json writes: every field in declaration order, absent ones as null, no blanks. */
  function Body(r: InferRequest): string { Render(Tokens(r)) }

  ghost predicate NumberText(text: string, allowed: string) { text != ""
      && forall i | 0 <= i < |text| :: text[i] in allowed }

  /** The text of a floating-point option is a number, and max_tokens is a 32-bit unsigned integer. */
  ghost predicate Sendable(r: InferRequest) {
    match r.options
    case None => true
    case Some(o) =>
      && (o.maxTokens.Some? ==> o.maxTokens.value < 0x1_0000_0000)
      && (o.temperature.Some? ==> NumberText(o.temperature.value, "0123456789.-+eE"))
      && (o.topP.Some? ==> NumberText(o.topP.value, "0123456789.-+eE"))
  }

  // The core's side.

  datatype CoreRequest = CoreRequest(model: string, input: string, maxTokens: int, temperature: real, topP: real)

  const DEFAULTS := CoreRequest("llama-7b", "hello world", 32, 0.8, 0.95)

  function NonEmptyOr(text: string, default: string): string { if text == "" then default else text }

  function PositiveOr(value: real, default: real): real { if value <= 0.0 then default else value }

  /** None is an exception of stoi or stof, which ends the connection's thread and with it the process. */
  function Parsed(stof: FloatParser, body: string): Option<CoreRequest> {
    var top :- FindIntValue(body, "max_tokens", 32);
    var temperature :- FindFloatValue(stof, body, "temperature", 0.8);
    var topP :- FindFloatValue(stof, body, "top_p", 0.95);
    var nested := NestedOption(body, "max_tokens");
    var maxTokens :- if nested == "" then Some(if top <= 0 then 32 else top) else Stoi(nested);
    Some(CoreRequest(
      NonEmptyOr(FindStringValue(body, "model"), "llama-7b"),
      NonEmptyOr(FindStringValue(body, "input"), "hello world"),
      maxTokens, PositiveOr(temperature, 0.8), PositiveOr(topP, 0.95)))
  }

  method ParseRequestBody(stof: FloatParser, body: string) returns (result: Option<CoreRequest>)
    ensures result == Parsed(stof, body)
  {
    var request := DEFAULTS;
    request := request.(model := FindStringValue(body, "model"));
    if request.model == "" {
      request := request.(model := "llama-7b");
    }
    request := request.(input := FindStringValue(body, "input"));
    if request.input == "" {
      request := request.(input := "hello world");
    }
    var count := FindIntValue(body, "max_tokens", 32);
    if count.None? {
      return None;
    }
    request := request.(maxTokens := count.value);
    var temperature := FindFloatValue(stof, body, "temperature", 0.8);
    if temperature.None? {
      return None;
    }
    request := request.(temperature := temperature.value);
    var topP := FindFloatValue(stof, body, "top_p", 0.95);
    if topP.None? {
      return None;
    }
    request := request.(topP := topP.value);
    if request.maxTokens <= 0 {
      request := request.(maxTokens := 32);
    }
    if request.temperature <= 0.0 {
      request := request.(temperature := 0.8);
    }
    if request.topP <= 0.0 {
      request := request.(topP := 0.95);
    }
    var nested := NestedOption(body, "max_tokens");
    if nested != "" {
      var override := Stoi(nested);
      if override.None? {
        return None;
      }
      request := request.(maxTokens := override.value);
    }
    result := Some(request);
  }

  // The body is compact JSON.

  lemma {:induction false} CompactConcat(a: seq<Token>, b: seq<Token>)
    requires Compact(a) && Compact(b)
    ensures Compact(a + b)
  {
  }

  lemma HeadCompact(r: InferRequest)
    ensures Compact(HeadTokens(r))
  {
    hide Escaped, Guarded, AllTame;
    SerdeShape(r.model);
    SerdeShape(r.input);
  }

  lemma IdCompact(id: Option<string>)
    ensures Compact(IdTokens(id))
  {
    hide Escaped, Guarded, AllTame;
    if id.Some? {
      SerdeShape(id.value);
    }
  }

  lemma CountQuoteFree(n: Option<nat>)
    ensures QuoteFree(CountOrNull(n))
  {
    if n.Some? {
      var text := Decimal(n.value);
      assert forall i | 0 <= i < |text| :: text[i] in text;
    }
  }

  lemma NumberQuoteFree(text: Option<string>)
    requires text.Some? ==> NumberText(text.value, FLOAT_CHARS)
    ensures QuoteFree(text.GetOr("null"))
  {
  }

  lemma OptionsCompact(r: InferRequest)
    requires Sendable(r)
    ensures Compact(OptionTokens(r.options))
  {
    if r.options.Some? {
      var o := r.options.value;
      CountQuoteFree(o.maxTokens);
      NumberQuoteFree(o.temperature);
      NumberQuoteFree(o.topP);
      FieldTokensCompact(CountOrNull(o.maxTokens), o.temperature.GetOr("null"), o.topP.GetOr("null"));
    }
  }

  lemma FieldTokensCompact(count: string, temperature: string, topP: string)
    requires QuoteFree(count) && QuoteFree(temperature) && QuoteFree(topP)
    ensures Compact([Raw("{"), Key("max_tokens"), Raw(count + ","), Key("temperature"), Raw(temperature + ","),
                     Key("top_p"), Raw(topP + "},")])
  {
    assert QuoteFree(count + ",") && QuoteFree(temperature + ",") && QuoteFree(topP + "},");
  }

  lemma BodyCompact(r: InferRequest)
    requires Sendable(r)
    ensures Compact(Tokens(r))
  {
    HeadCompact(r);
    OptionsCompact(r);
    IdCompact(r.requestId);
    CompactConcat(HeadTokens(r), OptionTokens(r.options));
    CompactConcat(HeadTokens(r) + OptionTokens(r.options), IdTokens(r.requestId));
  }

  // Where each key is.

  predicate NoKey(tokens: seq<Token>, key: string) { forall t | 0 <= t < |tokens| :: tokens[t] != Key(key) }

  lemma NamesDiffer()
    ensures "model" != "input" && "model" != "options" && "input" != "options"
    ensures "max_tokens" != "temperature" && "max_tokens" != "top_p" && "temperature" != "top_p"
    ensures "request_id" != "max_tokens" && "request_id" != "model" && "request_id" != "input"
    ensures "request_id" != "temperature" && "request_id" != "top_p"
    ensures "model" !in ["max_tokens", "temperature", "top_p"] && "input" !in ["max_tokens", "temperature", "top_p"]
  {
    assert "model"[0] != "input"[0];
    assert "request_id"[0] != "max_tokens"[0];
    assert |"top_p"| == 5 && "top_p"[0] != "model"[0] && "top_p"[0] != "input"[0];
    assert |"max_tokens"| == 10 && |"temperature"| == 11 && |"input"| == 5 && |"model"| == 5;
  }

  lemma OnlyInFirst(a: seq<Token>, b: seq<Token>, key: string, t: nat)
    requires OnlyKey(a, key, t) && NoKey(b, key)
    ensures OnlyKey(a + b, key, t) && (a + b)[t + 1] == a[t + 1]
  {
  }

  lemma OnlyInSecond(a: seq<Token>, b: seq<Token>, key: string, t: nat)
    requires NoKey(a, key) && OnlyKey(b, key, t)
    ensures OnlyKey(a + b, key, |a| + t) && (a + b)[|a| + t + 1] == b[t + 1]
  {
  }

  lemma HeadKeys(r: InferRequest)
    ensures OnlyKey(HeadTokens(r), "model", 1) && OnlyKey(HeadTokens(r), "input", 4)
    ensures NoKey(HeadTokens(r), "max_tokens") && NoKey(HeadTokens(r), "temperature") && NoKey(HeadTokens(r), "top_p")
  {
    NamesDiffer();
    assert |"max_tokens"| == 10 && |"temperature"| == 11 && |"options"| == 7 && |"model"| == 5;
  }

  predicate OptionKeyAt(options: Option<InferOptions>, key: string, t: nat) {
    options.Some? && ((t == 1 && key == "max_tokens") || (t == 3 && key == "temperature") || (t == 5 && key == "top_p"))
  }

  lemma KeyPlaces(options: Option<InferOptions>, key: string, t: nat)
    requires t < |OptionTokens(options)|
    ensures OptionTokens(options)[t] == Key(key) <==> OptionKeyAt(options, key, t)
  {
  }

  lemma OptionCount(options: Option<InferOptions>)
    ensures |OptionTokens(options)| == if options.None? then 1 else 7
  {
  }

  lemma OptionKeys(options: Option<InferOptions>)
    ensures NoKey(OptionTokens(options), "model") && NoKey(OptionTokens(options), "input")
    ensures if options.None?
            then NoKey(OptionTokens(options), "max_tokens") && NoKey(OptionTokens(options), "temperature")
                 && NoKey(OptionTokens(options), "top_p")
            else OnlyKey(OptionTokens(options), "max_tokens", 1) && OnlyKey(OptionTokens(options), "temperature", 3)
                 && OnlyKey(OptionTokens(options), "top_p", 5)
  {
    hide OptionTokens;
    NamesDiffer();
    OptionCount(options);
    forall t, key | 0 <= t < |OptionTokens(options)|
      ensures OptionTokens(options)[t] == Key(key) <==> OptionKeyAt(options, key, t)
    {
      KeyPlaces(options, key, t);
    }
  }

  lemma IdKeys(id: Option<string>)
    ensures NoKey(IdTokens(id), "model") && NoKey(IdTokens(id), "input")
    ensures NoKey(IdTokens(id), "max_tokens") && NoKey(IdTokens(id), "temperature") && NoKey(IdTokens(id), "top_p")
  {
    NamesDiffer();
  }

  // What each search finds.

  lemma StringsFound(r: InferRequest)
    requires Sendable(r)
    ensures FindStringValue(Body(r), "model") == UpToQuote(Escaped(SerdeEscape, r.model))
    ensures FindStringValue(Body(r), "input") == UpToQuote(Escaped(SerdeEscape, r.input))
  {
    BodyCompact(r);
    HeadKeys(r);
    OptionKeys(r.options);
    IdKeys(r.requestId);
    var tail := OptionTokens(r.options) + IdTokens(r.requestId);
    assert Tokens(r) == HeadTokens(r) + tail;
    OnlyInFirst(HeadTokens(r), tail, "model", 1);
    OnlyInFirst(HeadTokens(r), tail, "input", 4);
    StringFound(Tokens(r), "model", 1);
    StringFound(Tokens(r), "input", 4);
  }

  function SentCount(r: InferRequest): Option<nat> { if r.options.Some? then r.options.value.maxTokens else None }

  function SentTemperature(r: InferRequest): Option<string> { if r.options.Some? then r.options.value.temperature
      else None }

  function SentTopP(r: InferRequest): Option<string> { if r.options.Some? then r.options.value.topP else None }

  lemma OptionMissing(r: InferRequest, key: string, allowed: string)
    requires Sendable(r) && r.options.None? && PlainName(key)
    requires NoKey(HeadTokens(r), key) && NoKey(OptionTokens(r.options), key) && NoKey(IdTokens(r.requestId), key)
    ensures FindNumberText(Body(r), key, allowed) == None
  {
    BodyCompact(r);
    assert forall u | 0 <= u < |Tokens(r)| :: Tokens(r)[u] != Key(key);
    NumberMissing(Tokens(r), key, allowed);
  }

  predicate StopsNumbers(end: string, allowed: string) { end != "" && end[0] !in allowed && "null"[0] !in allowed }

  lemma NamesPlain()
    ensures PlainName("max_tokens") && PlainName("temperature") && PlainName("top_p")
    ensures StopsNumbers(",", INT_CHARS) && StopsNumbers(",", FLOAT_CHARS) && StopsNumbers("},", FLOAT_CHARS)
  {
  }

  /** The value of an option field is the token after its key: a number or null, then `end`. */
  lemma OptionPresent(r: InferRequest, key: string, t: nat, number: Option<string>, end: string, allowed: string)
    requires Sendable(r) && PlainName(key)
    requires NoKey(HeadTokens(r), key) && NoKey(IdTokens(r.requestId), key)
    requires OnlyKey(OptionTokens(r.options), key, t)
    requires OptionTokens(r.options)[t + 1] == Raw(number.GetOr("null") + end)
    requires number.Some? ==> NumberText(number.value, allowed)
    requires StopsNumbers(end, allowed)
    ensures FindNumberText(Body(r), key, allowed) == number
  {
    var head, options, id := HeadTokens(r), OptionTokens(r.options), IdTokens(r.requestId);
    BodyCompact(r);
    OnlyInFirst(options, id, key, t);
    OnlyInSecond(head, options + id, key, t);
    assert Tokens(r) == head + (options + id);
    NumberFound(Tokens(r), key, |head| + t, number.GetOr(""), allowed);
  }

  lemma CountFound(r: InferRequest)
    requires Sendable(r)
    ensures FindNumberText(Body(r), "max_tokens", INT_CHARS)
         == if SentCount(r).None? then None else Some(Decimal(SentCount(r).value))
  {
    NamesPlain();
    HeadKeys(r);
    OptionKeys(r.options);
    IdKeys(r.requestId);
    if r.options.None? {
      OptionMissing(r, "max_tokens", INT_CHARS);
    } else {
      var number := if SentCount(r).None? then None else Some(Decimal(SentCount(r).value));
      if number.Some? {
        DecimalChars(SentCount(r).value);
      }
      OptionPresent(r, "max_tokens", 1, number, ",", INT_CHARS);
    }
  }

  lemma DecimalChars(n: nat)
    ensures NumberText(Decimal(n), INT_CHARS)
  {
    assert forall i | 0 <= i < |Decimal(n)| :: Decimal(n)[i] in Decimal(n);
  }

  lemma TemperatureFound(r: InferRequest)
    requires Sendable(r)
    ensures FindNumberText(Body(r), "temperature", FLOAT_CHARS) == SentTemperature(r)
  {
    NamesPlain();
    HeadKeys(r);
    OptionKeys(r.options);
    IdKeys(r.requestId);
    if r.options.None? {
      OptionMissing(r, "temperature", FLOAT_CHARS);
    } else {
      OptionPresent(r, "temperature", 3, SentTemperature(r), ",", FLOAT_CHARS);
    }
  }

  lemma TopPFound(r: InferRequest)
    requires Sendable(r)
    ensures FindNumberText(Body(r), "top_p", FLOAT_CHARS) == SentTopP(r)
  {
    NamesPlain();
    HeadKeys(r);
    OptionKeys(r.options);
    IdKeys(r.requestId);
    if r.options.None? {
      OptionMissing(r, "top_p", FLOAT_CHARS);
    } else {
      OptionPresent(r, "top_p", 5, SentTopP(r), "},", FLOAT_CHARS);
    }
  }

  /** The nested override never fires on a body the gateway sends. */
  lemma OverrideNeverFires(r: InferRequest)
    requires Sendable(r)
    ensures NestedOption(Body(r), "max_tokens") == ""
  {
    BodyCompact(r);
    MaxTokensIsRaw(r);
    NamesPlain();
    forall from | 0 <= from <= |Body(r)|
      ensures FindStringValue(Body(r)[from..], "max_tokens") == ""
    {
      NeverAString(Tokens(r), "max_tokens", from);
    }
    NothingNested(Body(r), "max_tokens");
  }

  lemma MaxTokensIsRaw(r: InferRequest)
    ensures var tokens := Tokens(r);
            forall t | 0 <= t < |tokens| && tokens[t] == Key("max_tokens") :: t + 1 < |tokens| && tokens[t + 1].Raw?
  {
    HeadKeys(r);
    OptionKeys(r.options);
    IdKeys(r.requestId);
    var head, options, id := HeadTokens(r), OptionTokens(r.options), IdTokens(r.requestId);
    if r.options.Some? {
      OnlyInFirst(options, id, "max_tokens", 1);
      OnlyInSecond(head, options + id, "max_tokens", 1);
      assert Tokens(r) == head + (options + id);
    }
  }

  /** What the core makes of the text of a float option: the default when there is none or it is not positive. */
  function FloatOr(stof: FloatParser, text: Option<string>, default: real): Option<real> {
    if text.None? then Some(default)
    else
      var value :- stof(text.value);
      Some(PositiveOr(value, default))
  }

  /** What the core makes of a request, for every request the gateway can send: each string up to the first
      quote of its escaped text, the numbers as sent, the defaults for absent or non-positive ones, and an
      exception exactly when max_tokens does not fit an int or stof throws. */
  lemma ParsedBody(stof: FloatParser, r: InferRequest)
    requires Sendable(r)
    ensures var count := SentCount(r).GetOr(0);
            var temperature := FloatOr(stof, SentTemperature(r), 0.8);
            var topP := FloatOr(stof, SentTopP(r), 0.95);
            Parsed(stof, Body(r)) ==
              if count > INT_MAX || temperature.None? || topP.None? then None
              else Some(CoreRequest(
                     NonEmptyOr(UpToQuote(Escaped(SerdeEscape, r.model)), "llama-7b"),
                     NonEmptyOr(UpToQuote(Escaped(SerdeEscape, r.input)), "hello world"),
                     if count == 0 then 32 else count,
                     temperature.value, topP.value))
  {
    StringsFound(r);
    CountFound(r);
    TemperatureFound(r);
    TopPFound(r);
    OverrideNeverFires(r);
    if SentCount(r).Some? {
      DecimalConverts(SentCount(r).value, "");
      assert Decimal(SentCount(r).value) + "" == Decimal(SentCount(r).value);
    }
  }

  // Which strings survive.

  /** Characters that serde_json copies. */
  predicate Plain(c: char) { c != '"' && c != '\\' && c >= ' ' }

  ghost predicate AllPlain(s: string) { forall i | 0 <= i < |s| :: Plain(s[i]) }

  function Surviving(s: string): string { UpToQuote(Escaped(SerdeEscape, s)) }

  lemma UpToQuoteCons(a: string, b: string)
    requires QuoteFree(a)
    ensures UpToQuote(a + b) == a + UpToQuote(b)
  {
    UpToQuoteShape(b);
    var n := |UpToQuote(b)|;
    assert forall i | 0 <= i < n :: b[i] == (a + b)[|a| + i];
    assert forall i | |a| <= i < |a| + n :: (a + b)[i] == b[i - |a|];
    UpToQuoteIs(a + b, |a| + n);
    assert (a + b)[..|a| + n] == a + b[..n];
  }

  lemma SurvivingCons(c: char, rest: string)
    ensures c != '"' ==> Surviving([c] + rest) == SerdeEscape(c) + Surviving(rest)
    ensures c == '"' ==> Surviving([c] + rest) == "\\"
  {
    assert ([c] + rest)[1..] == rest;
    if c != '"' {
      assert QuoteFree(SerdeEscape(c));
      UpToQuoteCons(SerdeEscape(c), Escaped(SerdeEscape, rest));
    } else {
      UpToQuoteIs("\\\"" + Escaped(SerdeEscape, rest), 1);
    }
  }

  function Backslashes(n: nat): string { seq(n, _ => '\\') }

  /** Escaping doubles a run of backslashes, so the shift it causes can never be made up later. */
  lemma {:induction false} NeverShifted(n: nat, s: string)
    requires n > 0
    ensures s != Backslashes(n) + Surviving(s)
    decreases |s|
  {
    if s != "" && s[0] == '\\' {
      var rest := s[1..];
      assert s == ['\\'] + rest;
      SurvivingCons('\\', rest);
      NeverShifted(n + 1, rest);
      assert (Backslashes(n) + ("\\\\" + Surviving(rest)))[1..] == Backslashes(n + 1) + Surviving(rest);
    }
  }

  /** A string arrives unchanged exactly when none of its characters needs escaping. */
  lemma {:induction false} VerbatimExactlyWhen(s: string)
    ensures Surviving(s) == s <==> AllPlain(s)
    decreases |s|
  {
    if s != "" {
      var c, rest := s[0], s[1..];
      assert s == [c] + rest;
      SurvivingCons(c, rest);
      if Plain(c) {
        VerbatimExactlyWhen(rest);
        assert AllPlain(s) <==> AllPlain(rest) by {
          assert forall i | 0 <= i < |rest| :: rest[i] == s[i + 1];
        }
        assert Surviving(s) == [c] + Surviving(rest);
        assert Surviving(s) == s <==> Surviving(rest) == rest by {
          assert ([c] + Surviving(rest))[1..] == Surviving(rest);
        }
      } else if c == '\\' {
        NeverShifted(1, rest);
        assert Surviving(s)[1..] == Backslashes(1) + Surviving(rest);
      } else {
        assert Surviving(s)[0] == '\\';
      }
    } else {
      UpToQuoteShape("");
    }
  }

  predicate Readable(stof: FloatParser, text: Option<string>) { text.Some? ==> stof(text.value).Some? }

  /** The core uses what stof makes of a float option when that is positive, and the default otherwise. */
  ghost predicate UsedOrDefault(stof: FloatParser, text: Option<string>, default: real, used: real) {
    match text
    case None => used == default
    case Some(t) => stof(t).Some? && used == if stof(t).value > 0.0 then stof(t).value else default
  }

  /** The request is parsed at all exactly when its numbers convert; then the gateway's model and input reach
      the core unchanged exactly when they are non-empty and need no escaping, its numbers when positive; what
      the core uses in place of an empty text or another number is given here. */
  lemma RequestSurvivesExactlyWhen(stof: FloatParser, r: InferRequest)
    requires Sendable(r)
    ensures Parsed(stof, Body(r)).Some? <==>
            SentCount(r).GetOr(0) < 0x8000_0000 && Readable(stof, SentTemperature(r)) && Readable(stof, SentTopP(r))
    ensures Parsed(stof, Body(r)).Some? ==>
              var q := Parsed(stof, Body(r)).value;
              && (q.model == r.model <==> r.model != "" && AllPlain(r.model))
              && (q.input == r.input <==> r.input != "" && AllPlain(r.input))
              && (r.model == "" ==> q.model == "llama-7b")
              && (r.input == "" ==> q.input == "hello world")
              && q.maxTokens == (if SentCount(r).GetOr(0) > 0 then SentCount(r).value else 32)
              && UsedOrDefault(stof, SentTemperature(r), 0.8, q.temperature)
              && UsedOrDefault(stof, SentTopP(r), 0.95, q.topP)
  {
    ParsedBody(stof, r);
    VerbatimExactlyWhen(r.model);
    VerbatimExactlyWhen(r.input);
    NothingSurvivesOnlyFromNothing(r.model);
    NothingSurvivesOnlyFromNothing(r.input);
  }

  /** For every text at all, the core works with a model, an input and positive floats, and with a positive
      count unless a nested string overrides it; that override is taken as it is, even when negative. */
  lemma ParsedIsSane(stof: FloatParser, body: string)
    requires Parsed(stof, body).Some?
    ensures var q, top := Parsed(stof, body).value, FindIntValue(body, "max_tokens", 32);
            && q.model != "" && q.input != "" && q.temperature > 0.0 && q.topP > 0.0
            && top.Some?
            && (if NestedOption(body, "max_tokens") != "" then Stoi(NestedOption(body, "max_tokens")) == Some(q.maxTokens)
                else q.maxTokens > 0 && (top.value > 0 ==> q.maxTokens == top.value)
                     && (top.value <= 0 ==> q.maxTokens == 32))
  {
  }

  /** A body whose max_tokens is a string among its options. */
  ghost predicate StringCount(tokens: seq<Token>, o: nat, t: nat, count: string) {
    && Compact(tokens) && OptionsAt(tokens, o) && o + 2 <= t
    && OnlyKey(tokens, "max_tokens", t) && tokens[t + 1] == Str(count)
    && count != "" && '"' !in count && Stoi(count).Some?
  }

  /** The options are documented to accept max_tokens as a string. It is used exactly when it is not their
      first field; as the first one it is passed over for the default. */
  lemma StringCountUsedExactlyWhen(stof: FloatParser, tokens: seq<Token>, o: nat, t: nat, count: string)
    requires StringCount(tokens, o, t, count) && Parsed(stof, Render(tokens)).Some?
    ensures Parsed(stof, Render(tokens)).value.maxTokens == if t == o + 2 then 32 else Stoi(count).value
  {
    NamesPlain();
    NestedMissesTheFirst(tokens, "max_tokens", o, t);
    UpToQuoteIs(count, |count|);
    assert count[..|count|] == count;
    StringIsNoNumber(tokens, t);
    ParsedIsSane(stof, Render(tokens));
  }

  lemma StringIsNoNumber(tokens: seq<Token>, t: nat)
    requires Compact(tokens) && OnlyKey(tokens, "max_tokens", t) && tokens[t + 1].Str?
    ensures FindIntValue(Render(tokens), "max_tokens", 32) == Some(32)
  {
    NamesPlain();
    KeyFound(tokens, "max_tokens", t);
    var rest := Render(tokens[t + 1..]);
    assert tokens[t + 1..][0] == tokens[t + 1];
    assert rest[0] == '"';
    ReadNumber(Render(tokens), "max_tokens", Render(tokens[..t]), rest, "", INT_CHARS);
  }

  lemma NothingSurvivesOnlyFromNothing(s: string)
    ensures Surviving(s) == "" <==> s == ""
  {
    if s != "" {
      assert s == [s[0]] + s[1..];
      SurvivingCons(s[0], s[1..]);
    } else {
      UpToQuoteShape("");
    }
  }
}

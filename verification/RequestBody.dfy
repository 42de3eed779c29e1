/** The body the gateway sends is JSON for the request: a strict reader of the fields in declaration order gets
    the request back, whatever its strings contain. */
module RequestBody {
  import opened Wrappers
  import opened Text
  import opened Escaping
  import opened Decoding
  import opened FieldFinder
  import opened Messages
  import opened RoundTrip

  // The reader.

  datatype Field<T> = Field(value: T, rest: string)

  function ReadCountOrNull(text: string): Option<Field<Option<nat>>> {
    match Expect(text, "null")
    case Some(rest) => Some(Field(None, rest))
    case None =>
      var n :- ReadCount(text);
      Some(Field(Some(n.value), n.rest))
  }

  /** A number is kept as its text. */
  function ReadFloatOrNull(text: string): Option<Field<Option<string>>> {
    match Expect(text, "null")
    case Some(rest) => Some(Field(None, rest))
    case None =>
      var end := SpanEnd(text, 0, "0123456789.-+eE");
      if end == 0 then None else Some(Field(Some(text[..end]), text[end..]))
  }

  function ReadString(text: string): Option<Scanned> { ReadStringField(text, "\"", true) }

  function ReadKey(text: string, key: string): Option<string> { Expect(text, "\"" + key + "\":") }

  function ReadOptions(text: string): Option<Field<Option<InferOptions>>> {
    match Expect(text, "null,")
    case Some(rest) => Some(Field(None, rest))
    case None =>
      var fields :- Expect(text, "{");
      var atCount :- ReadKey(fields, "max_tokens");
      var count :- ReadCountOrNull(atCount);
      var second :- Expect(count.rest, ",");
      var atTemperature :- ReadKey(second, "temperature");
      var temperature :- ReadFloatOrNull(atTemperature);
      var third :- Expect(temperature.rest, ",");
      var atTopP :- ReadKey(third, "top_p");
      var topP :- ReadFloatOrNull(atTopP);
      var rest :- Expect(topP.rest, "},");
      Some(Field(Some(InferOptions(count.value, temperature.value, topP.value)), rest))
  }

  function ReadId(text: string): Option<Field<Option<string>>> {
    var atId :- ReadKey(text, "request_id");
    match Expect(atId, "null")
    case Some(rest) => Some(Field(None, rest))
    case None =>
      var id :- ReadString(atId);
      Some(Field(Some(id.value), id.rest))
  }

  function ReadRequest(text: string): Option<InferRequest> {
    var fields :- Expect(text, "{");
    var atModel :- ReadKey(fields, "model");
    var model :- ReadString(atModel);
    var second :- Expect(model.rest, ",");
    var atInput :- ReadKey(second, "input");
    var input :- ReadString(atInput);
    var third :- Expect(input.rest, ",");
    var atOptions :- ReadKey(third, "options");
    var options :- ReadOptions(atOptions);
    var id :- ReadId(options.rest);
    if id.rest == "}" then Some(InferRequest(model.value, input.value, options.value, id.value)) else None
  }

  // Reading tokens.

  lemma RenderCons(token: Token, rest: seq<Token>)
    ensures Render([token] + rest) == Shown(token) + Render(rest)
  {
    assert ([token] + rest)[1..] == rest;
  }

  lemma RawReads(text: string, rest: seq<Token>)
    ensures Expect(Render([Raw(text)] + rest), text) == Some(Render(rest))
  {
    RenderCons(Raw(text), rest);
    ExpectReads(text, Render(rest));
  }

  lemma KeyReads(key: string, rest: seq<Token>)
    ensures ReadKey(Render([Key(key)] + rest), key) == Some(Render(rest))
  {
    RenderCons(Key(key), rest);
    ExpectReads("\"" + key + "\":", Render(rest));
  }

  lemma WrongStart(text: string, literal: string)
    requires text != "" && literal != "" && text[0] != literal[0]
    ensures Expect(text, literal) == None
  {
    if |literal| <= |text| {
      assert text[..|literal|][0] == text[0];
    }
  }

  lemma Assoc(a: string, b: string, c: string)
    ensures (a + b) + c == a + (b + c)
  {
  }

  lemma StringReads(s: string, rest: seq<Token>)
    ensures ReadString(Render([Quoted(s)] + rest)) == Some(Scanned(s, Render(rest)))
    ensures Expect(Render([Quoted(s)] + rest), "null") == None
  {
    hide Scan, Escaped, Render, Expect;
    var escaped, after := Escaped(SerdeEscape, s), Render(rest);
    RenderCons(Quoted(s), rest);
    assert Shown(Quoted(s)) == "\"" + escaped + "\"";
    QuotesAround(escaped, after);
    WrongStart("\"" + (escaped + "\"" + after), "null");
    ExpectReads("\"", escaped + "\"" + after);
    SerdeDecodes(s, after);
  }

  lemma QuotesAround(escaped: string, after: string)
    ensures ("\"" + escaped + "\"") + after == "\"" + (escaped + "\"" + after)
  {
  }

  lemma NullReads(after: string)
    ensures ReadCountOrNull("null" + after) == Some(Field(None, after))
    ensures ReadFloatOrNull("null" + after) == Some(Field(None, after))
  {
    ExpectReads("null", after);
  }

  lemma CountReads(n: Option<nat>, rest: seq<Token>)
    ensures ReadCountOrNull(Render([Raw(CountOrNull(n) + ",")] + rest)) == Some(Field(n, "," + Render(rest)))
  {
    hide ReadCountOrNull, Render, Decimal;
    RenderCons(Raw(CountOrNull(n) + ","), rest);
    Assoc(CountOrNull(n), ",", Render(rest));
    var after := "," + Render(rest);
    if n.None? {
      NullReads(after);
    } else {
      DigitsRead(n.value, after);
    }
  }

  lemma DigitsRead(n: nat, after: string)
    requires after != "" && after[0] !in DIGITS
    ensures ReadCountOrNull(Decimal(n) + after) == Some(Field(Some(n), after))
  {
    hide Decimal, ReadCount, Expect;
    var digits := Decimal(n);
    assert digits[0] in digits;
    assert "" + (digits + after) == digits + after;
    WrongStart(digits + after, "null");
    NumberFieldReads("", n, after);
    EmptyLead(digits + after);
  }

  lemma EmptyLead(text: string)
    ensures Expect(text, "") == Some(text)
  {
  }

  lemma FloatReads(x: Option<string>, end: string, rest: seq<Token>)
    requires x.Some? ==> NumberText(x.value, "0123456789.-+eE")
    requires end != "" && end[0] !in "0123456789.-+eE"
    ensures ReadFloatOrNull(Render([Raw(x.GetOr("null") + end)] + rest)) == Some(Field(x, end + Render(rest)))
  {
    hide ReadFloatOrNull, Render, NumberText;
    RenderCons(Raw(x.GetOr("null") + end), rest);
    Assoc(x.GetOr("null"), end, Render(rest));
    var after := end + Render(rest);
    if x.None? {
      NullReads(after);
    } else {
      FloatTextReads(x.value, after);
    }
  }

  lemma FloatTextReads(number: string, after: string)
    requires NumberText(number, "0123456789.-+eE") && !StartsIn(after, "0123456789.-+eE")
    ensures ReadFloatOrNull(number + after) == Some(Field(Some(number), after))
  {
    assert number[0] != 'n';
    WrongStart(number + after, "null");
    assert "" + number + after == number + after;
    SpanOver("", number, after, "0123456789.-+eE");
    assert (number + after)[..|number|] == number && (number + after)[|number|..] == after;
  }

  // The fields of the options from the last one to the first.

  function TopPTokens(o: InferOptions, rest: seq<Token>): seq<Token> {
    [Key("top_p")] + ([Raw(o.topP.GetOr("null") + "},")] + rest)
  }

  function TemperatureTokens(o: InferOptions, rest: seq<Token>): seq<Token> {
    [Key("temperature")] + ([Raw(o.temperature.GetOr("null") + ",")] + TopPTokens(o, rest))
  }

  function FieldTokens(o: InferOptions, rest: seq<Token>): seq<Token> {
    [Key("max_tokens")] + ([Raw(CountOrNull(o.maxTokens) + ",")] + TemperatureTokens(o, rest))
  }

  lemma OptionsShape(o: InferOptions, rest: seq<Token>)
    ensures OptionTokens(Some(o)) + rest == [Raw("{")] + FieldTokens(o, rest)
  {
  }

  lemma OptionsRead(o: InferOptions, rest: seq<Token>)
    requires o.temperature.Some? ==> NumberText(o.temperature.value, "0123456789.-+eE")
    requires o.topP.Some? ==> NumberText(o.topP.value, "0123456789.-+eE")
    ensures ReadOptions(Render(OptionTokens(Some(o)) + rest)) == Some(Field(Some(o), Render(rest)))
  {
    hide Render, ReadKey, ReadCountOrNull, ReadFloatOrNull, CountOrNull, OptionTokens, Expect, NumberText;
    OptionsShape(o, rest);
    StartsWithBrace(FieldTokens(o, rest));
    KeyReads("max_tokens", [Raw(CountOrNull(o.maxTokens) + ",")] + TemperatureTokens(o, rest));
    CountReads(o.maxTokens, TemperatureTokens(o, rest));
    ExpectReads(",", Render(TemperatureTokens(o, rest)));
    KeyReads("temperature", [Raw(o.temperature.GetOr("null") + ",")] + TopPTokens(o, rest));
    FloatReads(o.temperature, ",", TopPTokens(o, rest));
    ExpectReads(",", Render(TopPTokens(o, rest)));
    KeyReads("top_p", [Raw(o.topP.GetOr("null") + "},")] + rest);
    FloatReads(o.topP, "},", rest);
    ExpectReads("},", Render(rest));
  }

  lemma StartsWithBrace(fields: seq<Token>)
    ensures Expect(Render([Raw("{")] + fields), "{") == Some(Render(fields))
    ensures Expect(Render([Raw("{")] + fields), "null,") == None
  {
    RawReads("{", fields);
    RenderCons(Raw("{"), fields);
    WrongStart(Render([Raw("{")] + fields), "null,");
  }

  lemma IdReads(id: Option<string>)
    ensures ReadId(Render(IdTokens(id))) == Some(Field(id, "}"))
  {
    var end := [Raw("}")] + [];
    RenderCons(Raw("}"), []);
    assert Render(end) == "}";
    match id {
      case None =>
        var value := [Raw("null}")] + [];
        assert IdTokens(id) == [Key("request_id")] + value;
        KeyReads("request_id", value);
        RenderCons(Raw("null}"), []);
        assert Render(value) == "null" + "}";
        ExpectReads("null", "}");
      case Some(text) =>
        var value := [Quoted(text)] + end;
        assert IdTokens(id) == [Key("request_id")] + value;
        KeyReads("request_id", value);
        StringReads(text, end);
    }
  }

  function OptionsOnward(r: InferRequest): seq<Token> {
    [Raw(",")] + ([Key("options")] + (OptionTokens(r.options) + IdTokens(r.requestId)))
  }

  function InputOnward(r: InferRequest): seq<Token> {
    [Raw(",")] + ([Key("input")] + ([Quoted(r.input)] + OptionsOnward(r)))
  }

  lemma BodyShape(r: InferRequest)
    ensures Tokens(r) == [Raw("{")] + ([Key("model")] + ([Quoted(r.model)] + InputOnward(r)))
  {
    hide OptionTokens, IdTokens, Quoted;
  }

  /** The body of every request decodes to that request. */
  lemma BodyDecodes(r: InferRequest)
    requires Sendable(r)
    ensures ReadRequest(Body(r)) == Some(r)
  {
    hide Render, ReadKey, ReadString, ReadOptions, ReadId, Tokens, OptionTokens, IdTokens, Quoted, Expect, Sendable;
    BodyShape(r);
    RawReads("{", [Key("model")] + ([Quoted(r.model)] + InputOnward(r)));
    KeyReads("model", [Quoted(r.model)] + InputOnward(r));
    StringReads(r.model, InputOnward(r));
    RawReads(",", [Key("input")] + ([Quoted(r.input)] + OptionsOnward(r)));
    KeyReads("input", [Quoted(r.input)] + OptionsOnward(r));
    StringReads(r.input, OptionsOnward(r));
    RawReads(",", [Key("options")] + (OptionTokens(r.options) + IdTokens(r.requestId)));
    KeyReads("options", OptionTokens(r.options) + IdTokens(r.requestId));
    MaybeOptionsRead(r, IdTokens(r.requestId));
    IdReads(r.requestId);
  }

  lemma MaybeOptionsRead(r: InferRequest, rest: seq<Token>)
    requires Sendable(r)
    ensures ReadOptions(Render(OptionTokens(r.options) + rest)) == Some(Field(r.options, Render(rest)))
  {
    match r.options {
      case None =>
        assert OptionTokens(r.options) == [Raw("null,")];
        RawReads("null,", rest);
      case Some(o) =>
        OptionsRead(o, rest);
    }
  }
}

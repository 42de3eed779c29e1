/** cpp_inference/inference_core.cpp: the field finder that searches raw JSON text, and where its key
    patterns can occur in compact JSON whose strings are escaped. */
module FieldFinder {
  import opened Wrappers
  import opened Text
  import opened Escaping

  function KeyPattern(key: string): string { "\"" + key + "\":" }

  function StringPattern(key: string): string { KeyPattern(key) + "\"" }

  function FindStringValue(json: string, key: string): string {
    match Find(json, StringPattern(key), 0)
    case None => ""
    case Some(position) =>
      var start := position + |StringPattern(key)|;
      match Find(json, "\"", start)
      case None => ""
      case Some(end) => json[start..end]
  }

  /** The longest run of `allowed` characters after the key; None when the key or the run is missing. */
  function FindNumberText(json: string, key: string, allowed: string): Option<string> {
    match Find(json, KeyPattern(key), 0)
    case None => None
    case Some(position) =>
      var start := position + |KeyPattern(key)|;
      var digits := json[start..SpanEnd(json, start, allowed)];
      if digits == "" then None else Some(digits)
  }

  const INT_CHARS := "0123456789-"
  const FLOAT_CHARS := "0123456789.-+eE"

  /** None is an exception of stoi. */
  function FindIntValue(json: string, key: string, fallback: int): Option<int> {
    match FindNumberText(json, key, INT_CHARS)
    case None => Some(fallback)
    case Some(digits) => Stoi(digits)
  }

  /** `std::stof`, which is not part of this model: any function from text to a number or an exception. */
  type FloatParser = string -> Option<real>

  function FindFloatValue(stof: FloatParser, json: string, key: string, fallback: real): Option<real> {
    match FindNumberText(json, key, FLOAT_CHARS)
    case None => Some(fallback)
    case Some(digits) => stof(digits)
  }

  /** The empty string is the fallback. */
  function NestedOption(json: string, key: string): string {
    match Find(json, "\"options\"", 0)
    case None => ""
    case Some(position) =>
      match Find(json, "\"", position + 9)
      case None => ""
      case Some(value) => FindStringValue(json[value + 1..], key)
  }

  // What the searches mean, in any text.

  /** The text between the first occurrence of the key with an opening quote and the next quote. */
  lemma StringValueIs(before: string, key: string, value: string, after: string)
    requires var json := before + ("\"" + key + "\":\"") + (value + "\"" + after);
             Find(json, "\"" + key + "\":\"", 0) == Some(|before|) && '"' !in value
    ensures FindStringValue(before + ("\"" + key + "\":\"") + (value + "\"" + after), key) == value
  {
    var pattern := "\"" + key + "\":\"";
    var json, start := before + pattern + (value + "\"" + after), |before| + |pattern|;
    assert pattern == StringPattern(key);
    assert json[start..] == value + "\"" + after;
    assert json[start + |value|] == json[start..][|value|];
    assert forall i | start <= i < start + |value| :: json[i] == json[start..][i - start];
    QuoteFound(json, start, start + |value|);
    assert json[start..start + |value|] == value;
  }

  /** Nothing is found when the key does not occur so, or its value has no closing quote. */
  lemma StringValueMissing(json: string, key: string)
    requires var pattern := "\"" + key + "\":\"";
             var found := Find(json, pattern, 0);
             found.Some? ==> '"' !in json[found.value + |pattern|..]
    ensures FindStringValue(json, key) == ""
  {
    var pattern := "\"" + key + "\":\"";
    assert pattern == StringPattern(key);
    var found := Find(json, pattern, 0);
    if found.Some? {
      FindFirst(json, "\"", found.value + |pattern|);
    }
  }

  predicate FirstAt(before: string, pattern: string, after: string) {
    Find(before + pattern + after, pattern, 0) == Some(|before|)
  }

  /** The run of allowed characters right after the first occurrence of the key. */
  lemma NumberTextIs(before: string, key: string, number: string, after: string, allowed: string)
    requires FirstAt(before, "\"" + key + "\":", number + after)
    requires AllIn(number, allowed) && !StartsIn(after, allowed)
    ensures FindNumberText(before + ("\"" + key + "\":") + (number + after), key, allowed)
         == if number == "" then None else Some(number)
  {
    var pattern := "\"" + key + "\":";
    var json, start := before + pattern + (number + after), |before| + |pattern|;
    assert pattern == KeyPattern(key) && json == (before + pattern) + number + after;
    SpanOver(before + pattern, number, after, allowed);
    assert json[start..start + |number|] == number;
  }

  /** An integer field is what stoi makes of its digits and minus signs, a float field what stof makes of its
      text; an absent field, and one that does not start like a number, is the fallback. */
  lemma NumbersMean(before: string, key: string, number: string, after: string, fallback: int)
    requires FirstAt(before, "\"" + key + "\":", number + after)
    requires AllIn(number, "0123456789-") && !StartsIn(after, "0123456789-")
    ensures FindIntValue(before + ("\"" + key + "\":") + (number + after), key, fallback)
         == if number == "" then Some(fallback) else Stoi(number)
  {
    NumberTextIs(before, key, number, after, "0123456789-");
  }

  lemma FloatsMean(stof: FloatParser, before: string, key: string, number: string, after: string, fallback: real)
    requires FirstAt(before, "\"" + key + "\":", number + after)
    requires AllIn(number, "0123456789.-+eE") && !StartsIn(after, "0123456789.-+eE")
    ensures FindFloatValue(stof, before + ("\"" + key + "\":") + (number + after), key, fallback)
         == if number == "" then Some(fallback) else stof(number)
  {
    NumberTextIs(before, key, number, after, "0123456789.-+eE");
  }

  lemma AbsentMeansFallback(stof: FloatParser, json: string, key: string, count: int, level: real)
    requires Find(json, "\"" + key + "\":", 0).None?
    ensures FindIntValue(json, key, count) == Some(count) && FindFloatValue(stof, json, key, level) == Some(level)
  {
    assert "\"" + key + "\":" == KeyPattern(key);
  }

  /** The nested search starts behind the first quote after the first `"options"`. */
  lemma NestedOptionIs(before: string, between: string, candidate: string, key: string)
    requires FirstAt(before, "\"options\"", between + "\"" + candidate) && '"' !in between
    ensures NestedOption(before + "\"options\"" + (between + "\"" + candidate), key)
         == FindStringValue(candidate, key)
  {
    hide Find, FindStringValue;
    var json, start := before + "\"options\"" + (between + "\"" + candidate), |before| + 9;
    assert json[start..] == between + "\"" + candidate;
    assert forall i | start <= i < |json| :: json[i] == json[start..][i - start];
    QuoteFound(json, start, start + |between|);
    assert json[start + |between| + 1..] == candidate;
  }

  lemma NothingNested(json: string, key: string)
    requires forall from | 0 <= from <= |json| :: FindStringValue(json[from..], key) == ""
    ensures NestedOption(json, key) == ""
  {
  }

  // Compact JSON as tokens.

  /** Punctuation and numbers, a key with its colon, or a string value with escaped content. */
  datatype Token = Raw(text: string) | Key(name: string) | Str(content: string)

  function Shown(token: Token): string {
    match token
    case Raw(text) => text
    case Key(name) => KeyPattern(name)
    case Str(content) => "\"" + content + "\""
  }

  function Render(tokens: seq<Token>): string {
    if tokens == [] then "" else Shown(tokens[0]) + Render(tokens[1..])
  }

  predicate PlainName(name: string) {
    name != "" && name[0] !in ",}:" && forall i | 0 <= i < |name| :: name[i] != '"' && name[i] != '\\'
  }

  predicate QuoteFree(text: string) { forall i | 0 <= i < |text| :: text[i] != '"' }

  predicate TokenOk(token: Token) {
    match token
    case Raw(text) => text != "" && QuoteFree(text)
    case Key(name) => PlainName(name)
    case Str(content) => Guarded(content)
  }

  /** A string value is followed by a comma or a closing brace. */
  predicate ClosedBy(token: Token) { token.Raw? && token.text != "" && token.text[0] in ",}" }

  ghost predicate Compact(tokens: seq<Token>) {
    && (forall t | 0 <= t < |tokens| :: TokenOk(tokens[t]))
    && (forall t | 0 <= t < |tokens| && tokens[t].Str? :: t + 1 < |tokens| && ClosedBy(tokens[t + 1]))
  }

  lemma CompactTail(tokens: seq<Token>)
    requires Compact(tokens) && tokens != []
    ensures Compact(tokens[1..])
  {
    assert forall t | 0 <= t < |tokens[1..]| :: tokens[1..][t] == tokens[t + 1];
  }

  lemma {:induction false} RenderConcat(a: seq<Token>, b: seq<Token>)
    ensures Render(a + b) == Render(a) + Render(b)
  {
    if a == [] {
      assert a + b == b;
    } else {
      assert (a + b)[1..] == a[1..] + b;
      RenderConcat(a[1..], b);
    }
  }

  lemma OccursAfter(a: string, b: string, pattern: string, i: nat)
    requires i >= |a|
    ensures OccursAt(a + b, pattern, i) <==> OccursAt(b, pattern, i - |a|)
  {
  }

  lemma PatternChars(key: string)
    ensures var p := KeyPattern(key);
            && |p| == |key| + 3 && p[0] == '"' && p[|key| + 1] == '"' && p[|key| + 2] == ':'
            && forall j | 0 <= j < |key| :: p[j + 1] == key[j]
  {
  }

  /** A key pattern occurs nowhere from the opening to the closing quote of a string value. */
  lemma NotInValue(content: string, rest: string, key: string, i: nat)
    requires Guarded(content) && PlainName(key) && rest != "" && rest[0] in ",}"
    requires i < |content| + 2
    ensures !OccursAt("\"" + content + "\"" + rest, KeyPattern(key), i)
  {
    hide OccursAt;
    var text, p := "\"" + content + "\"" + rest, KeyPattern(key);
    var n, k := |content|, |key|;
    PatternChars(key);
    assert forall j | 0 <= j < n :: content[j] == text[j + 1];
    assert text[0] == '"' && text[n + 1] == '"' && text[n + 2] == rest[0];
    if i == n + 1 {
      assert p[1] == key[0];
      Mismatch(text, p, i, 1);
    } else if i + k > n {
      assert p[(n - i) + 1] == key[n - i];
      Mismatch(text, p, i, n + 1 - i);
    } else if i + k == n {
      Mismatch(text, p, i, k + 2);
    } else if content[i + k] != '"' {
      Mismatch(text, p, i, k + 1);
    } else {
      assert content[i + k - 1] == '\\' && p[(k - 1) + 1] == key[k - 1];
      Mismatch(text, p, i, k);
    }
  }

  /** Nor inside a key, at its closing quote or at its colon. */
  lemma NotInsideKey(name: string, rest: string, key: string, i: nat)
    requires PlainName(name) && PlainName(key) && 0 < i < |name| + 3
    ensures !OccursAt(KeyPattern(name) + rest, KeyPattern(key), i)
  {
    var text, p, n := KeyPattern(name) + rest, KeyPattern(key), |name|;
    PatternChars(key);
    PatternChars(name);
    if i == n + 1 {
      assert text[n + 2] == ':' && p[1] == key[0];
      Mismatch(text, p, i, 1);
    } else {
      assert text[i] == KeyPattern(name)[i];
      assert i <= n ==> KeyPattern(name)[(i - 1) + 1] == name[i - 1];
      Mismatch(text, p, i, 0);
    }
  }

  lemma SameKeyAtStart(name: string, rest: string, key: string)
    requires PlainName(name) && PlainName(key)
    ensures OccursAt(KeyPattern(name) + rest, KeyPattern(key), 0) ==> name == key
  {
    var text, p := KeyPattern(name) + rest, KeyPattern(key);
    var n, k := |name|, |key|;
    PatternChars(key);
    PatternChars(name);
    assert forall j | 0 <= j < n + 3 :: KeyPattern(name)[j] == text[j];
    if k < n {
      assert text[k + 1] == name[k];
      Mismatch(text, p, 0, k + 1);
    } else if n < k {
      assert p[n + 1] == key[n];
      Mismatch(text, p, 0, n + 1);
    } else if OccursAt(text, p, 0) {
      forall j | 0 <= j < n
        ensures name[j] == key[j]
      {
        assert p[j + 1] == text[0 + (j + 1)];
      }
    }
  }

  lemma NotInFirst(tokens: seq<Token>, key: string, i: nat)
    requires Compact(tokens) && tokens != [] && PlainName(key)
    requires i < |Shown(tokens[0])| && !(i == 0 && tokens[0] == Key(key))
    ensures !OccursAt(Render(tokens), KeyPattern(key), i)
  {
    var rest := Render(tokens[1..]);
    assert TokenOk(tokens[0]);
    match tokens[0] {
      case Raw(text) =>
        PatternChars(key);
        assert Render(tokens)[i] == text[i];
        Mismatch(Render(tokens), KeyPattern(key), i, 0);
      case Key(name) =>
        // Neither inside the key nor, unless it is that key, at its opening quote.
        if i > 0 {
          NotInsideKey(name, rest, key, i);
        } else {
          SameKeyAtStart(name, rest, key);
        }
      case Str(content) =>
        assert tokens[1..][0] == tokens[1] && rest[0] == tokens[1].text[0];
        NotInValue(content, rest, key, i);
    }
  }

  lemma PrefixLength(tokens: seq<Token>, t: nat)
    requires t < |tokens|
    ensures |Render(tokens[..t + 1])| == |Shown(tokens[0])| + |Render(tokens[1..][..t])|
  {
    assert tokens[..t + 1][1..] == tokens[1..][..t];
  }

  lemma NotInNothing(tokens: seq<Token>, key: string, i: nat)
    requires OccursAt(Render(tokens), KeyPattern(key), i)
    ensures tokens != []
  {
  }

  /** The key argument: in compact JSON a key pattern occurs only where a key token of that name is. */
  lemma {:induction false} OccursOnlyAtKeys(tokens: seq<Token>, key: string, i: nat) returns (t: nat)
    requires Compact(tokens) && PlainName(key) && OccursAt(Render(tokens), KeyPattern(key), i)
    ensures t < |tokens| && tokens[t] == Key(key) && i == |Render(tokens[..t])|
  {
    NotInNothing(tokens, key, i);
    var first := Shown(tokens[0]);
    if i == 0 && tokens[0] == Key(key) {
      t := 0;
    } else {
      hide OccursAt, Compact, PlainName, KeyPattern, Shown;
      if i < |first| {
        NotInFirst(tokens, key, i);
      }
      OccursAfter(first, Render(tokens[1..]), KeyPattern(key), i);
      CompactTail(tokens);
      var later := OccursOnlyAtKeys(tokens[1..], key, i - |first|);
      PrefixLength(tokens, later);
      t := later + 1;
    }
  }

  // Lookups.

  lemma RenderAt(tokens: seq<Token>, t: nat)
    requires t < |tokens|
    ensures Render(tokens) == Render(tokens[..t]) + Shown(tokens[t]) + Render(tokens[t + 1..])
  {
    assert tokens == tokens[..t] + tokens[t..];
    RenderConcat(tokens[..t], tokens[t..]);
    assert tokens[t..][1..] == tokens[t + 1..];
  }

  ghost predicate OnlyKey(tokens: seq<Token>, key: string, t: nat) {
    && t + 1 < |tokens| && tokens[t] == Key(key)
    && forall u | 0 <= u < |tokens| && tokens[u] == Key(key) :: u == t
  }

  /** The search for a key finds the one token of that name, and stops right before its value. */
  lemma KeyFound(tokens: seq<Token>, key: string, t: nat)
    requires Compact(tokens) && PlainName(key) && OnlyKey(tokens, key, t)
    ensures var json, before := Render(tokens), Render(tokens[..t]);
            && Find(json, KeyPattern(key), 0) == Some(|before|)
            && json == before + KeyPattern(key) + Render(tokens[t + 1..])
  {
    var json, before := Render(tokens), Render(tokens[..t]);
    RenderAt(tokens, t);
    OccursBetween(before, KeyPattern(key), Render(tokens[t + 1..]));
    forall i | 0 <= i < |before|
      ensures !OccursAt(json, KeyPattern(key), i)
    {
      if OccursAt(json, KeyPattern(key), i) {
        var u := OccursOnlyAtKeys(tokens, key, i);
      }
    }
    FindIs(json, KeyPattern(key), 0, |before|);
  }

  /** A value up to its first quote character. */
  function UpToQuote(content: string): string {
    match Find(content, "\"", 0)
    case None => content
    case Some(q) => content[..q]
  }

  lemma UpToQuoteShape(content: string)
    ensures var u := UpToQuote(content);
            && |u| <= |content| && u == content[..|u|]
            && (forall i | 0 <= i < |u| :: content[i] != '"')
            && (|u| < |content| ==> content[|u|] == '"')
  {
    FindFirst(content, "\"", 0);
    var q := Find(content, "\"", 0);
    forall i | 0 <= i < |content| && (q.Some? ==> i < q.value)
      ensures content[i] != '"'
    {
      assert !OccursAt(content, "\"", i);
    }
    if q.Some? {
      assert "\""[0] == content[q.value + 0];
    }
  }

  lemma UpToQuoteIs(content: string, n: nat)
    requires n <= |content| && (forall i | 0 <= i < n :: content[i] != '"') && (n < |content| ==> content[n] == '"')
    ensures UpToQuote(content) == content[..n]
  {
    UpToQuoteShape(content);
    assert |UpToQuote(content)| == n;
  }

  lemma QuoteFound(json: string, start: nat, q: nat)
    requires start <= q < |json| && json[q] == '"' && forall i | start <= i < q :: json[i] != '"'
    ensures Find(json, "\"", start) == Some(q)
  {
    forall i | start <= i < q
      ensures !OccursAt(json, "\"", i)
    {
      Mismatch(json, "\"", i, 0);
    }
    FindIs(json, "\"", start, q);
  }

  lemma ReadQuoted(json: string, start: nat, content: string, after: string)
    requires start <= |json| && json[start..] == content + "\"" + after
    ensures var end := start + |UpToQuote(content)|;
            Find(json, "\"", start) == Some(end) && json[start..end] == UpToQuote(content)
  {
    var rest, u := json[start..], UpToQuote(content);
    UpToQuoteShape(content);
    assert rest[|u|] == '"' && rest[..|u|] == u;
    assert forall i | 0 <= i < |rest| :: rest[i] == json[start + i];
    forall i | start <= i < start + |u|
      ensures json[i] != '"'
    {
      assert rest[i - start] == (content + "\"" + after)[i - start] == content[i - start];
    }
    QuoteFound(json, start, start + |u|);
    assert json[start..start + |u|] == rest[..|u|];
  }

  lemma Regroup(before: string, key: string, content: string, after: string)
    ensures before + KeyPattern(key) + ("\"" + content + "\"" + after)
         == before + StringPattern(key) + (content + "\"" + after)
  {
  }

  /** A string field that is present is found, and read up to the first quote of its escaped text. */
  lemma StringFound(tokens: seq<Token>, key: string, t: nat)
    requires Compact(tokens) && PlainName(key) && OnlyKey(tokens, key, t) && tokens[t + 1].Str?
    ensures FindStringValue(Render(tokens), key) == UpToQuote(tokens[t + 1].content)
  {
    KeyFound(tokens, key, t);
    var before, content, after := Render(tokens[..t]), tokens[t + 1].content, Render(tokens[t + 2..]);
    assert tokens[t + 1..][0] == Str(content) && tokens[t + 1..][1..] == tokens[t + 2..];
    assert Render(tokens[t + 1..]) == "\"" + content + "\"" + after;
    Regroup(before, key, content, after);
    StringAt(Render(tokens), key, before, content, after);
  }

  lemma StringAt(json: string, key: string, before: string, content: string, after: string)
    requires json == before + StringPattern(key) + (content + "\"" + after)
    requires Find(json, KeyPattern(key), 0) == Some(|before|)
    ensures FindStringValue(json, key) == UpToQuote(content)
  {
    hide OccursAt, Find, UpToQuote, StringPattern;
    StringPatternFound(json, key, before, content + "\"" + after);
    assert json[|before| + |StringPattern(key)|..] == content + "\"" + after;
    ReadQuoted(json, |before| + |StringPattern(key)|, content, after);
  }

  lemma StringPatternFound(json: string, key: string, before: string, rest: string)
    requires json == before + StringPattern(key) + rest && Find(json, KeyPattern(key), 0) == Some(|before|)
    ensures Find(json, StringPattern(key), 0) == Some(|before|)
  {
    OccursBetween(before, StringPattern(key), rest);
    FindFirst(json, KeyPattern(key), 0);
    forall i | 0 <= i < |before|
      ensures !OccursAt(json, StringPattern(key), i)
    {
      PatternPrefix(json, key, i);
    }
    FindIs(json, StringPattern(key), 0, |before|);
  }

  lemma PatternPrefix(json: string, key: string, i: nat)
    ensures OccursAt(json, StringPattern(key), i)
       ==> OccursAt(json, KeyPattern(key), i) && i + |KeyPattern(key)| < |json| && json[i + |KeyPattern(key)|] == '"'
  {
    assert forall j | 0 <= j < |KeyPattern(key)| :: StringPattern(key)[j] == KeyPattern(key)[j];
    assert StringPattern(key)[|KeyPattern(key)|] == '"';
  }

  lemma ReadNumber(json: string, key: string, before: string, rest: string, number: string, allowed: string)
    requires json == before + KeyPattern(key) + rest && Find(json, KeyPattern(key), 0) == Some(|before|)
    requires |number| < |rest| && number == rest[..|number|] && rest[|number|] !in allowed
    requires forall i | 0 <= i < |number| :: number[i] in allowed
    ensures FindNumberText(json, key, allowed) == if number == "" then None else Some(number)
  {
    var start := |before + KeyPattern(key)|;
    assert json[start..] == rest;
    assert forall i | start <= i < start + |number| :: json[i] == number[i - start];
    SpanIs(json, start, allowed, start + |number|);
    assert json[start..start + |number|] == number;
  }

  /** A number that is present is read exactly, and anything that is not a number is passed over. */
  lemma NumberFound(tokens: seq<Token>, key: string, t: nat, number: string, allowed: string)
    requires Compact(tokens) && PlainName(key) && OnlyKey(tokens, key, t)
    requires tokens[t + 1].Raw? && |number| < |tokens[t + 1].text| && number == tokens[t + 1].text[..|number|]
    requires forall i | 0 <= i < |number| :: number[i] in allowed
    requires tokens[t + 1].text[|number|] !in allowed
    ensures FindNumberText(Render(tokens), key, allowed) == if number == "" then None else Some(number)
  {
    KeyFound(tokens, key, t);
    var rest := Render(tokens[t + 1..]);
    assert tokens[t + 1..][0] == tokens[t + 1];
    assert rest == tokens[t + 1].text + Render(tokens[t + 1..][1..]);
    assert rest[..|number|] == number;
    ReadNumber(Render(tokens), key, Render(tokens[..t]), rest, number, allowed);
  }

  lemma NumberMissing(tokens: seq<Token>, key: string, allowed: string)
    requires Compact(tokens) && PlainName(key) && Key(key) !in tokens
    ensures FindNumberText(Render(tokens), key, allowed) == None
  {
    var found := Find(Render(tokens), KeyPattern(key), 0);
    FindFirst(Render(tokens), KeyPattern(key), 0);
    if found.Some? {
      var t := OccursOnlyAtKeys(tokens, key, found.value);
    }
  }

  /** A key whose value is never a string is never found as a string field, in the text or any suffix. */
  lemma NeverAString(tokens: seq<Token>, key: string, from: nat)
    requires Compact(tokens) && PlainName(key) && from <= |Render(tokens)|
    requires forall t | 0 <= t < |tokens| && tokens[t] == Key(key) :: t + 1 < |tokens| && tokens[t + 1].Raw?
    ensures FindStringValue(Render(tokens)[from..], key) == ""
  {
    hide OccursAt, Compact, StringPattern, FindStringValue, Render;
    var json := Render(tokens);
    var suffix := json[from..];
    assert json == json[..from] + suffix;
    forall i | 0 <= i <= |suffix|
      ensures !OccursAt(suffix, StringPattern(key), i)
    {
      OccursAfter(json[..from], suffix, StringPattern(key), from + i);
      StringPatternNowhere(tokens, key, from + i);
    }
    NoPatternNoString(suffix, key);
  }

  lemma NoPatternNoString(text: string, key: string)
    requires forall i | 0 <= i <= |text| :: !OccursAt(text, StringPattern(key), i)
    ensures FindStringValue(text, key) == ""
  {
    FindNone(text, StringPattern(key));
  }

  lemma StringPatternNowhere(tokens: seq<Token>, key: string, i: nat)
    requires Compact(tokens) && PlainName(key)
    requires forall t | 0 <= t < |tokens| && tokens[t] == Key(key) :: t + 1 < |tokens| && tokens[t + 1].Raw?
    ensures !OccursAt(Render(tokens), StringPattern(key), i)
  {
    var json := Render(tokens);
    PatternPrefix(json, key, i);
    if OccursAt(json, KeyPattern(key), i) {
      var t := OccursOnlyAtKeys(tokens, key, i);
      RenderAt(tokens, t);
      assert TokenOk(tokens[t + 1]);
      assert tokens[t + 1..][0] == tokens[t + 1];
      assert json[i + |KeyPattern(key)|] == Render(tokens[t + 1..])[0] == tokens[t + 1].text[0];
    }
  }
}

/** cpp_inference/inference_core.cpp, `extract_value_from_nested_options`: which string options it finds. */
module NestedOptions {
  import opened Wrappers
  import opened Text
  import opened FieldFinder

  /** In compact JSON with one string field of this key, its pattern occurs there and nowhere else. */
  lemma OnlyThere(tokens: seq<Token>, key: string, t: nat, i: nat)
    requires Compact(tokens) && PlainName(key) && OnlyKey(tokens, key, t)
    requires OccursAt(Render(tokens), StringPattern(key), i)
    ensures i == |Render(tokens[..t])|
  {
    PatternPrefix(Render(tokens), key, i);
    var u := OccursOnlyAtKeys(tokens, key, i);
  }

  lemma StringSplit(tokens: seq<Token>, key: string, t: nat)
    requires t + 1 < |tokens| && tokens[t] == Key(key) && tokens[t + 1].Str?
    ensures Render(tokens) == Render(tokens[..t]) + StringPattern(key)
                              + (tokens[t + 1].content + "\"" + Render(tokens[t + 2..]))
  {
    var content, after := tokens[t + 1].content, Render(tokens[t + 2..]);
    RenderAt(tokens, t);
    assert tokens[t + 1..][0] == Str(content) && tokens[t + 1..][1..] == tokens[t + 2..];
    assert Render(tokens[t + 1..]) == "\"" + content + "\"" + after;
    Regroup(Render(tokens[..t]), key, content, after);
  }

  /** A string field in a text where its pattern occurs once, at the end of `before`. */
  lemma ReadOnce(text: string, before: string, key: string, content: string, after: string)
    requires text == before + StringPattern(key) + (content + "\"" + after)
    requires forall i | 0 <= i <= |text| && OccursAt(text, StringPattern(key), i) :: i == |before|
    ensures FindStringValue(text, key) == UpToQuote(content)
  {
    hide StringPattern, UpToQuote;
    OccursBetween(before, StringPattern(key), content + "\"" + after);
    FindIs(text, StringPattern(key), 0, |before|);
    assert text[|before| + |StringPattern(key)|..] == content + "\"" + after;
    ReadQuoted(text, |before| + |StringPattern(key)|, content, after);
  }

  lemma DropBefore(before: string, pattern: string, rest: string, from: nat)
    requires from <= |before|
    ensures (before + pattern + rest)[from..] == before[from..] + pattern + rest
  {
  }

  /** In a suffix of compact JSON a string field is found when the suffix holds its whole key, and not
      otherwise. */
  lemma StringInSuffix(tokens: seq<Token>, key: string, t: nat, from: nat)
    requires Compact(tokens) && PlainName(key) && OnlyKey(tokens, key, t) && tokens[t + 1].Str?
    requires from <= |Render(tokens)|
    ensures FindStringValue(Render(tokens)[from..], key)
         == if from <= |Render(tokens[..t])| then UpToQuote(tokens[t + 1].content) else ""
  {
    hide OccursAt, StringPattern, UpToQuote, Compact, Find;
    var json, before := Render(tokens), Render(tokens[..t]);
    var suffix, content, after := json[from..], tokens[t + 1].content, Render(tokens[t + 2..]);
    assert json == json[..from] + suffix;
    forall i | 0 <= i <= |suffix| && OccursAt(suffix, StringPattern(key), i)
      ensures from + i == |before|
    {
      OccursAfter(json[..from], suffix, StringPattern(key), from + i);
      OnlyThere(tokens, key, t, from + i);
    }
    if from <= |before| {
      StringSplit(tokens, key, t);
      DropBefore(before, StringPattern(key), content + "\"" + after, from);
      ReadOnce(suffix, before[from..], key, content, after);
    } else {
      FindNone(suffix, StringPattern(key));
    }
  }

  lemma PrefixGrows(tokens: seq<Token>, a: nat, b: nat)
    requires a <= b <= |tokens|
    ensures |Render(tokens[..a])| <= |Render(tokens[..b])|
  {
    assert tokens[..b] == tokens[..a] + tokens[a..b];
    RenderConcat(tokens[..a], tokens[a..b]);
  }

  lemma OneMore(tokens: seq<Token>, t: nat)
    requires t < |tokens|
    ensures |Render(tokens[..t + 1])| == |Render(tokens[..t])| + |Shown(tokens[t])|
  {
    assert tokens[..t + 1] == tokens[..t] + [tokens[t]];
    RenderConcat(tokens[..t], [tokens[t]]);
    assert [tokens[t]][1..] == [];
  }

  /** Where an options object starts: its key, its brace and the key of its first field. */
  ghost predicate OptionsAt(tokens: seq<Token>, o: nat) {
    && o + 2 < |tokens| && tokens[o] == Key("options") && tokens[o + 1] == Raw("{") && tokens[o + 2].Key?
    && Find(Render(tokens), "\"options\"", 0) == Some(|Render(tokens[..o])|)
  }

  lemma OptionsRegroup(before: string, name: string, rest: string)
    ensures before + KeyPattern("options") + ("{" + (KeyPattern(name) + rest))
         == before + "\"options\"" + (":{" + "\"" + (name + "\":" + rest))
  {
    var a, b := "\"options\"", ":";
    assert KeyPattern("options") == a + b;
    assert (a + b) + ("{" + (KeyPattern(name) + rest)) == a + (b + ("{" + (KeyPattern(name) + rest)));
    assert KeyPattern(name) + rest == "\"" + (name + "\":" + rest);
    assert b + ("{" + ("\"" + (name + "\":" + rest))) == ":{" + "\"" + (name + "\":" + rest);
  }

  lemma FirstOptionSplit(tokens: seq<Token>, o: nat)
    requires OptionsAt(tokens, o)
    ensures Render(tokens)
         == Render(tokens[..o]) + "\"options\""
            + (":{" + "\"" + (tokens[o + 2].name + "\":" + Render(tokens[o + 3..])))
  {
    var before, name, rest := Render(tokens[..o]), tokens[o + 2].name, Render(tokens[o + 3..]);
    RenderAt(tokens, o);
    assert tokens[o + 1..][0] == Raw("{") && tokens[o + 1..][1..] == tokens[o + 2..];
    assert tokens[o + 2..][0] == tokens[o + 2] && tokens[o + 2..][1..] == tokens[o + 3..];
    hide KeyPattern, Find;
    assert Render(tokens[o + 1..]) == "{" + (KeyPattern(name) + rest);
    OptionsRegroup(before, name, rest);
  }

  lemma SkipTo(before: string, pattern: string, gap: string, candidate: string)
    ensures (before + pattern + (gap + "\"" + candidate))[|before| + |pattern| + |gap| + 1..] == candidate
  {
  }

  lemma OptionsFirst(tokens: seq<Token>, o: nat)
    requires OptionsAt(tokens, o)
    ensures FirstAt(Render(tokens[..o]), "\"options\"",
                    ":{" + "\"" + (tokens[o + 2].name + "\":" + Render(tokens[o + 3..])))
  {
    hide Find, Render;
    FirstOptionSplit(tokens, o);
  }

  /** The search looks at everything behind the first quote of the object. */
  lemma SearchedSuffix(tokens: seq<Token>, key: string, o: nat)
    requires OptionsAt(tokens, o)
    ensures |Render(tokens[..o])| + 12 <= |Render(tokens)|
    ensures NestedOption(Render(tokens), key) == FindStringValue(Render(tokens)[|Render(tokens[..o])| + 12..], key)
  {
    var before, candidate := Render(tokens[..o]), tokens[o + 2].name + "\":" + Render(tokens[o + 3..]);
    hide FindStringValue, NestedOption, Render, Find, FirstAt;
    FirstOptionSplit(tokens, o);
    OptionsFirst(tokens, o);
    SkipTo(before, "\"options\"", ":{", candidate);
    NestedOptionIs(before, ":{", candidate, key);
  }

  /** Only the first key of the object starts before that suffix. */
  lemma KeyPositions(tokens: seq<Token>, o: nat, t: nat)
    requires OptionsAt(tokens, o) && o + 2 <= t < |tokens|
    ensures |Render(tokens[..o])| + 12 <= |Render(tokens[..t])| <==> t > o + 2
  {
    hide Find, Render;
    OneMore(tokens, o);
    OneMore(tokens, o + 1);
    assert |KeyPattern("options")| == 10;
    if t > o + 2 {
      OneMore(tokens, o + 2);
      PrefixGrows(tokens, o + 3, t);
    }
  }

  /** The nested search finds a string option exactly when it is not the first one, whose opening quote it has
      already passed. */
  lemma NestedMissesTheFirst(tokens: seq<Token>, key: string, o: nat, t: nat)
    requires Compact(tokens) && PlainName(key) && OnlyKey(tokens, key, t) && tokens[t + 1].Str?
    requires OptionsAt(tokens, o) && o + 2 <= t
    ensures NestedOption(Render(tokens), key) == if t == o + 2 then "" else UpToQuote(tokens[t + 1].content)
  {
    hide Find, FindStringValue, NestedOption, UpToQuote, Compact, Render;
    SearchedSuffix(tokens, key, o);
    KeyPositions(tokens, o, t);
    StringInSuffix(tokens, key, t, |Render(tokens[..o])| + 12);
  }
}

/** JSON string escaping on both sides of the wire, and one decoder (RFC 8259, section 7) that inverts it. */
module Escaping {
  import opened Wrappers

  /** What serde_json writes for a character inside a string. */
  function SerdeEscape(c: char): string {
    match c
    case '"' => "\\\""
    case '\\' => "\\\\"
    case '\n' => "\\n"
    case '\r' => "\\r"
    case '\t' => "\\t"
    case _ =>
      if c as int == 8 then "\\b"
      else if c as int == 12 then "\\f"
      else if c < ' ' then "\\u00" + [HEX[c as int / 16], HEX[c as int % 16]]
      else [c]
  }

  /** What the core's json_escape writes: five characters are escaped, all others are copied. */
  function CoreEscape(c: char): string {
    match c
    case '\\' => "\\\\"
    case '"' => "\\\""
    case '\n' => "\\n"
    case '\r' => "\\r"
    case '\t' => "\\t"
    case _ => [c]
  }

  function Escaped(escape: char -> string, text: string): string {
    if text == "" then "" else escape(text[0]) + Escaped(escape, text[1..])
  }

  lemma {:induction false} EscapedAppend(escape: char -> string, text: string, c: char)
    ensures Escaped(escape, text + [c]) == Escaped(escape, text) + escape(c)
  {
    if text == "" {
      assert Escaped(escape, [c]) == escape(c) + Escaped(escape, "");
    } else {
      assert (text + [c])[1..] == text[1..] + [c];
      EscapedAppend(escape, text[1..], c);
    }
  }

  /** The loop of json_escape. */
  method JsonEscape(value: string) returns (output: string)
    ensures output == Escaped(CoreEscape, value)
  {
    output := "";
    for i := 0 to |value|
      invariant output == Escaped(CoreEscape, value[..i])
    {
      assert value[..i + 1] == value[..i] + [value[i]];
      EscapedAppend(CoreEscape, value[..i], value[i]);
      match value[i] {
        case '\\' => output := output + "\\\\";
        case '"' => output := output + "\\\"";
        case '\n' => output := output + "\\n";
        case '\r' => output := output + "\\r";
        case '\t' => output := output + "\\t";
        case _ => output := output + [value[i]];
      }
    }
    assert value[..|value|] == value;
  }

  // Decoding.

  const HEX := "0123456789abcdef"

  function HexDigit(c: char): Option<nat> {
    if '0' <= c <= '9' then Some(c as int - '0' as int)
    else if 'a' <= c <= 'f' then Some(c as int - 'a' as int + 10)
    else if 'A' <= c <= 'F' then Some(c as int - 'A' as int + 10)
    else None
  }

  /** A four-digit escape; surrogate halves are not accepted. */
  function HexChar(text: string): Option<char> {
    if |text| < 4 then None
    else
      var a, b, c, d := HexDigit(text[0]), HexDigit(text[1]), HexDigit(text[2]), HexDigit(text[3]);
      if a.None? || b.None? || c.None? || d.None? then None
      else
        var code := 4096 * a.value + 256 * b.value + 16 * c.value + d.value;
        if 0xD800 <= code < 0xE000 then None else Some(code as char)
  }

  function ShortEscape(c: char): Option<char> {
    match c
    case '"' => Some('"')
    case '\\' => Some('\\')
    case '/' => Some('/')
    case 'b' => Some(8 as char)
    case 'f' => Some(12 as char)
    case 'n' => Some('\n')
    case 'r' => Some('\r')
    case 't' => Some('\t')
    case _ => None
  }

  datatype Decoded = Decoded(c: char, width: nat)

  /** The first character of string content. A strict decoder refuses raw control characters. */
  function FirstChar(text: string, strict: bool): (r: Option<Decoded>)
    requires text != ""
    ensures r.Some? ==> 1 <= r.value.width <= |text|
  {
    if text[0] != '\\' then
      if strict && text[0] < ' ' then None else Some(Decoded(text[0], 1))
    else if |text| < 2 then None
    else if text[1] == 'u' then
      match HexChar(text[2..])
      case None => None
      case Some(c) => Some(Decoded(c, 6))
    else
      match ShortEscape(text[1])
      case None => None
      case Some(c) => Some(Decoded(c, 2))
  }

  datatype Scanned = Scanned(value: string, rest: string)

  /** String content up to its closing quote, and what follows the quote. */
  function Scan(text: string, strict: bool): Option<Scanned>
    decreases |text|
  {
    if text == "" then None
    else if text[0] == '"' then Some(Scanned("", text[1..]))
    else
      match FirstChar(text, strict)
      case None => None
      case Some(first) =>
        match Scan(text[first.width..], strict)
        case None => None
        case Some(tail) => Some(Scanned([first.c] + tail.value, tail.rest))
  }

  /** The decoder reads the escape of `c` back, whatever follows it. */
  ghost predicate ReadsBack(escape: char -> string, c: char, strict: bool) {
    && escape(c) != "" && escape(c)[0] != '"'
    && forall rest: string :: FirstChar(escape(c) + rest, strict) == Some(Decoded(c, |escape(c)|))
  }

  lemma ScanStep(head: string, rest: string, c: char, tail: Scanned, strict: bool)
    requires head != "" && head[0] != '"' && FirstChar(head + rest, strict) == Some(Decoded(c, |head|))
    requires Scan(rest, strict) == Some(tail)
    ensures Scan(head + rest, strict) == Some(Scanned([c] + tail.value, tail.rest))
  {
    hide FirstChar;
    assert (head + rest)[|head|..] == rest && (head + rest)[0] == head[0];
  }

  lemma ScanEnd(t: string, strict: bool)
    ensures Scan("\"" + t, strict) == Some(Scanned("", t))
  {
  }

  lemma {:induction false} ScanInverts(escape: char -> string, s: string, t: string, strict: bool)
    requires forall i | 0 <= i < |s| :: ReadsBack(escape, s[i], strict)
    ensures Scan(Escaped(escape, s) + "\"" + t, strict) == Some(Scanned(s, t))
    decreases |s|
  {
    hide FirstChar, Scan;
    if s == "" {
      ScanEnd(t, strict);
      assert Escaped(escape, s) + "\"" + t == "\"" + t;
    } else {
      var head, rest := escape(s[0]), Escaped(escape, s[1..]) + "\"" + t;
      assert ReadsBack(escape, s[0], strict);
      ScanInverts(escape, s[1..], t, strict);
      ScanStep(head, rest, s[0], Scanned(s[1..], t), strict);
      assert Escaped(escape, s) + "\"" + t == head + rest;
      assert [s[0]] + s[1..] == s;
    }
  }

  lemma SerdeReadsBack(c: char)
    ensures ReadsBack(SerdeEscape, c, true)
  {
    forall rest: string
      ensures FirstChar(SerdeEscape(c) + rest, true) == Some(Decoded(c, |SerdeEscape(c)|))
    {
      var text := SerdeEscape(c) + rest;
      if c < ' ' && |SerdeEscape(c)| == 6 {
        var digits := text[2..];
        assert digits[0] == '0' && digits[1] == '0' && digits[2] == HEX[c as int / 16]
            && digits[3] == HEX[c as int % 16];
      }
    }
  }

  /** A character the core's escaper writes in a form that RFC 8259 allows. */
  predicate Tame(c: char) { c >= ' ' || c == '\n' || c == '\r' || c == '\t' }

  lemma CoreReadsBack(c: char, strict: bool)
    ensures ReadsBack(CoreEscape, c, strict) <==> !strict || Tame(c)
  {
    if !strict || Tame(c) {
      forall rest: string
        ensures FirstChar(CoreEscape(c) + rest, strict) == Some(Decoded(c, |CoreEscape(c)|))
      {
      }
    } else {
      assert FirstChar(CoreEscape(c) + "", strict) == None;
    }
  }

  /** What the gateway escapes decodes to exactly the original, under the strict rules, for every text. */
  lemma SerdeDecodes(s: string, t: string)
    ensures Scan(Escaped(SerdeEscape, s) + "\"" + t, true) == Some(Scanned(s, t))
  {
    forall i | 0 <= i < |s| ensures ReadsBack(SerdeEscape, s[i], true) { SerdeReadsBack(s[i]); }
    ScanInverts(SerdeEscape, s, t, true);
  }

  /** What the core escapes decodes uniquely by a decoder that accepts raw control characters. */
  lemma CoreDecodes(s: string, t: string)
    ensures Scan(Escaped(CoreEscape, s) + "\"" + t, false) == Some(Scanned(s, t))
  {
    forall i | 0 <= i < |s| ensures ReadsBack(CoreEscape, s[i], false) { CoreReadsBack(s[i], false); }
    ScanInverts(CoreEscape, s, t, false);
  }

  ghost predicate AllTame(s: string) { forall i | 0 <= i < |s| :: Tame(s[i]) }

  /** A strict decoder, such as the gateway's, accepts the core's escaping exactly when the text has no
      control character beyond the three the core escapes; then it gets the text itself. */
  lemma {:induction false} CoreDecodesStrictly(s: string, t: string)
    ensures AllTame(s) ==> Scan(Escaped(CoreEscape, s) + "\"" + t, true) == Some(Scanned(s, t))
    ensures !AllTame(s) ==> Scan(Escaped(CoreEscape, s) + "\"" + t, true) == None
    decreases |s|
  {
    hide Scan, FirstChar, CoreEscape;
    if AllTame(s) {
      forall i | 0 <= i < |s| ensures ReadsBack(CoreEscape, s[i], true) { CoreReadsBack(s[i], true); }
      ScanInverts(CoreEscape, s, t, true);
    } else {
      var text := Escaped(CoreEscape, s) + "\"" + t;
      var rest := Escaped(CoreEscape, s[1..]) + "\"" + t;
      assert text == CoreEscape(s[0]) + rest;
      if Tame(s[0]) {
        CoreReadsBack(s[0], true);
        assert !AllTame(s[1..]) by {
          var i :| 0 <= i < |s| && !Tame(s[i]);
          assert s[1..][i - 1] == s[i];
        }
        CoreDecodesStrictly(s[1..], t);
        ScanStepFails(CoreEscape(s[0]), rest, s[0], true);
      } else {
        RawControlFails(s[0], rest);
      }
    }
  }

  lemma ScanStepFails(head: string, rest: string, c: char, strict: bool)
    requires head != "" && head[0] != '"' && FirstChar(head + rest, strict) == Some(Decoded(c, |head|))
    requires Scan(rest, strict) == None
    ensures Scan(head + rest, strict) == None
  {
    hide FirstChar;
    assert (head + rest)[|head|..] == rest && (head + rest)[0] == head[0];
  }

  lemma RawControlFails(c: char, rest: string)
    requires !Tame(c)
    ensures Scan(CoreEscape(c) + rest, true) == None
  {
    assert (CoreEscape(c) + rest)[0] == c;
  }

  // Quotes inside escaped text.

  /** Every quote is preceded by a backslash. */
  predicate Guarded(text: string) {
    forall i | 0 <= i < |text| && text[i] == '"' :: i > 0 && text[i - 1] == '\\'
  }

  lemma HexDigitShape(digit: nat)
    requires digit < 16
    ensures HEX[digit] != '"' && Tame(HEX[digit])
  {
  }

  lemma SerdeEscapeShape(c: char)
    ensures Guarded(SerdeEscape(c)) && AllTame(SerdeEscape(c))
  {
    var text := SerdeEscape(c);
    if |text| == 6 {
      HexDigitShape(c as int / 16);
      HexDigitShape(c as int % 16);
      assert text[..4] == "\\u00" && text[4] == HEX[c as int / 16] && text[5] == HEX[c as int % 16];
      assert forall i | 0 <= i < 6 :: text[i] != '"' && Tame(text[i]);
    } else if |text| == 2 {
      assert text[0] == '\\' && Tame(text[1]);
    }
  }

  lemma Joined(a: string, b: string)
    ensures Guarded(a) && Guarded(b) ==> Guarded(a + b)
    ensures AllTame(a) && AllTame(b) ==> AllTame(a + b)
  {
  }

  /** The gateway's escaping guards every quote and leaves no control character. */
  lemma {:induction false} SerdeShape(s: string)
    ensures Guarded(Escaped(SerdeEscape, s)) && AllTame(Escaped(SerdeEscape, s))
  {
    hide SerdeEscape;
    if s != "" {
      SerdeEscapeShape(s[0]);
      SerdeShape(s[1..]);
      Joined(SerdeEscape(s[0]), Escaped(SerdeEscape, s[1..]));
    }
  }

  // Which of the possible escapes each side writes.

  predicate NoUpperHex(text: string) { forall i | 0 <= i < |text| :: !('A' <= text[i] <= 'F') }

  /** serde_json writes the shortest text that a strict decoder reads as `c`, in lower-case hexadecimal. */
  lemma SerdeIsShortest(c: char, text: string)
    requires text != "" && text[0] != '"' && FirstChar(text, true) == Some(Decoded(c, |text|))
    ensures |SerdeEscape(c)| <= |text|
    ensures |text| == |SerdeEscape(c)| && (|text| == 6 ==> NoUpperHex(text[2..])) ==> text == SerdeEscape(c)
  {
    if text[0] != '\\' {
      assert text == [c];
    } else if text[1] != 'u' {
      assert text == ['\\', text[1]];
    } else if c < ' ' && |SerdeEscape(c)| == 6 && NoUpperHex(text[2..]) {
      HexIsUnique(text[2..], c);
      assert text == "\\u" + text[2..];
    }
  }

  lemma HexIsUnique(digits: string, c: char)
    requires |digits| == 4 && NoUpperHex(digits) && c < ' ' && HexChar(digits) == Some(c)
    ensures digits == "00" + [HEX[c as int / 16], HEX[c as int % 16]]
  {
    var w, x := HexDigit(digits[0]).value, HexDigit(digits[1]).value;
    var y, z := HexDigit(digits[2]).value, HexDigit(digits[3]).value;
    assert w == 0 && x == 0 && y == c as int / 16 && z == c as int % 16;
    forall i | 0 <= i < 4
      ensures HEX[HexDigit(digits[i]).value] == digits[i]
    {
      LowerHexBack(digits[i]);
    }
    hide HexDigit, HexChar;
    assert digits == [HEX[w], HEX[x], HEX[y], HEX[z]];
  }

  lemma LowerHexBack(digit: char)
    requires HexDigit(digit).Some? && !('A' <= digit <= 'F')
    ensures HexDigit(digit).value < 16 && HEX[HexDigit(digit).value] == digit
  {
  }

  /** The core writes what serde_json writes, but copies the control characters other than newline, return
      and tab. */
  lemma EscapersAgree(c: char)
    ensures CoreEscape(c) == if Tame(c) then SerdeEscape(c) else [c]
  {
  }
}

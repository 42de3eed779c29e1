/** std::string searches. Characters stand for bytes. */
module Text {
  import opened Wrappers

  predicate OccursAt(text: string, pattern: string, i: nat) {
    i + |pattern| <= |text| && forall j | 0 <= j < |pattern| :: pattern[j] == text[i + j]
  }

  /** `text.find(pattern, start)`: the first occurrence at or after `start`. */
  function Find(text: string, pattern: string, start: nat): (r: Option<nat>)
    requires start <= |text|
    ensures r.Some? ==> start <= r.value && r.value + |pattern| <= |text|
    decreases |text| - start
  {
    if OccursAt(text, pattern, start) then Some(start)
    else if start == |text| then None
    else Find(text, pattern, start + 1)
  }

  /** The search returns the first occurrence, and nothing only when there is none. */
  lemma {:induction false} FindFirst(text: string, pattern: string, start: nat)
    requires start <= |text|
    ensures var r := Find(text, pattern, start);
            && (r.Some? ==> OccursAt(text, pattern, r.value))
            && forall i | start <= i <= |text| && (r.Some? ==> i < r.value) :: !OccursAt(text, pattern, i)
    decreases |text| - start
  {
    if !OccursAt(text, pattern, start) && start < |text| {
      FindFirst(text, pattern, start + 1);
    }
  }

  lemma FindNone(text: string, pattern: string)
    requires forall i | 0 <= i <= |text| :: !OccursAt(text, pattern, i)
    ensures Find(text, pattern, 0) == None
  {
    FindFirst(text, pattern, 0);
  }

  /** The last occurrence that starts at or before `from`. */
  function FindLast(text: string, pattern: string, from: nat): (r: Option<nat>)
    ensures r.Some? ==> r.value <= from && r.value + |pattern| <= |text|
  {
    if OccursAt(text, pattern, from) then Some(from)
    else if from == 0 then None
    else FindLast(text, pattern, from - 1)
  }

  lemma {:induction false} FindLastIs(text: string, pattern: string, from: nat, h: nat)
    requires h <= from && OccursAt(text, pattern, h)
    requires forall i | h < i <= from :: !OccursAt(text, pattern, i)
    ensures FindLast(text, pattern, from) == Some(h)
  {
    if h < from {
      FindLastIs(text, pattern, from - 1, h);
    }
  }

  /** The end of the longest run of characters of `allowed` from `start`: `find_first_not_of`, or the end. */
  function SpanEnd(text: string, start: nat, allowed: string): (r: nat)
    requires start <= |text|
    ensures start <= r <= |text|
    ensures forall i | start <= i < r :: text[i] in allowed
    ensures r < |text| ==> text[r] !in allowed
    decreases |text| - start
  {
    if start < |text| && text[start] in allowed then SpanEnd(text, start + 1, allowed) else start
  }

  const BLANKS := " \t\r\n"

  /** The start of the trailing run of blanks. */
  function TrimEnd(text: string): (r: nat)
    ensures r <= |text|
    ensures r > 0 ==> text[r - 1] !in BLANKS
    ensures forall i | r <= i < |text| :: text[i] in BLANKS
  {
    if text == "" || text[|text| - 1] !in BLANKS then |text| else TrimEnd(text[..|text| - 1])
  }

  lemma TrimEndAfter(text: string, i: nat)
    requires i < |text| && text[i] !in BLANKS
    ensures i < TrimEnd(text)
  {
  }

  lemma TrimEndIs(text: string, r: nat)
    requires 0 < r <= |text| && text[r - 1] !in BLANKS && forall i | r <= i < |text| :: text[i] in BLANKS
    ensures TrimEnd(text) == r
  {
    TrimEndAfter(text, r - 1);
  }

  function Trim(text: string): string {
    var begin := SpanEnd(text, 0, BLANKS);
    if begin == |text| then ""
    else
      TrimEndAfter(text, begin);
      text[begin..TrimEnd(text)]
  }

  /** Trimming takes away all blanks at both ends and nothing else. */
  lemma TrimIs(before: string, text: string, after: string)
    requires AllIn(before, " \t\r\n") && AllIn(after, " \t\r\n")
    requires text != "" ==> text[0] !in " \t\r\n" && text[|text| - 1] !in " \t\r\n"
    ensures Trim(before + text + after) == text
  {
    var whole, end := before + text + after, |before| + |text|;
    forall i | 0 <= i < |whole| && !(|before| <= i < end)
      ensures whole[i] in BLANKS
    {
      assert whole[i] == if i < |before| then before[i] else after[i - end];
    }
    if text == "" {
      SpanIs(whole, 0, BLANKS, |whole|);
    } else {
      assert whole[|before|] == text[0] && whole[end - 1] == text[|text| - 1];
      SpanIs(whole, 0, BLANKS, |before|);
      TrimEndIs(whole, end);
      assert whole[|before|..end] == text;
    }
  }

  predicate AllIn(text: string, allowed: string) { forall i | 0 <= i < |text| :: text[i] in allowed }

  predicate StartsIn(text: string, allowed: string) { text != "" && text[0] in allowed }

  // Numbers.

  const DIGITS := "0123456789"

  function DigitValue(c: char): nat
    requires c in DIGITS
  {
    c as int - '0' as int
  }

  function Value(digits: string): nat
    requires forall c | c in digits :: c in DIGITS
  {
    if digits == "" then 0 else 10 * Value(digits[..|digits| - 1]) + DigitValue(digits[|digits| - 1])
  }

  /** The decimal text of a number, as serde_json and iostreams print it. */
  function Decimal(n: nat): (text: string)
    ensures text != "" && forall c | c in text :: c in DIGITS
    ensures Value(text) == n
  {
    if n < 10 then [DIGITS[n]] else Decimal(n / 10) + [DIGITS[n % 10]]
  }

  /** What `isspace` accepts in the C locale. */
  const SPACES := " \t\n\r\U{000B}\U{000C}"

  /** The leading blanks, sign and digits that stoi and stoul read; no digits is an exception. */
  function SignedPrefix(text: string): Option<int> {
    var sign := SpanEnd(text, 0, SPACES);
    var negative := sign < |text| && text[sign] == '-';
    var start := if sign < |text| && text[sign] in "+-" then sign + 1 else sign;
    var end := SpanEnd(text, start, DIGITS);
    var magnitude: int := Value(text[start..end]);
    if start == end then None else Some(if negative then -magnitude else magnitude)
  }

  const INT_MAX := 0x7fff_ffff

  /** `std::stoi`; None is an exception: no digits, or out of the range of int. */
  function Stoi(text: string): Option<int> {
    match SignedPrefix(text)
    case None => None
    case Some(v) => if -INT_MAX - 1 <= v <= INT_MAX then Some(v) else None
  }

  const ULONG_RANGE := 0x1_0000_0000_0000_0000

  /** `std::stoul`; a minus sign negates modulo the range. */
  function Stoul(text: string): Option<nat> {
    match SignedPrefix(text)
    case None => None
    case Some(v) => if -ULONG_RANGE < v < ULONG_RANGE then Some(v % ULONG_RANGE) else None
  }

  /** Blanks, an optional sign, digits and what follows; no digits means that none follow either. */
  predicate NumberParts(blanks: string, sign: string, digits: string, rest: string) {
    && AllIn(blanks, " \t\n\r\U{000B}\U{000C}") && (sign == "" || sign == "+" || sign == "-")
    && AllIn(digits, "0123456789") && !StartsIn(rest, "0123456789")
    && (sign == "" && digits == "" ==> !StartsIn(rest, " \t\n\r\U{000B}\U{000C}") && !StartsIn(rest, "+-"))
  }

  lemma SpanOver(before: string, run: string, rest: string, allowed: string)
    requires AllIn(run, allowed) && !StartsIn(rest, allowed)
    ensures SpanEnd(before + run + rest, |before|, allowed) == |before| + |run|
  {
    hide SpanEnd, StartsIn;
    var text, end := before + run + rest, |before| + |run|;
    SpanParts(before, run, rest);
    forall i | |before| <= i < end
      ensures text[i] in allowed
    {
      assert run[i - |before|] in allowed;
    }
    RestStarts(rest, allowed);
    SpanIs(text, |before|, allowed, end);
  }

  lemma SpanParts(before: string, run: string, rest: string)
    ensures var text := before + run + rest;
            && (forall i | |before| <= i < |before| + |run| :: text[i] == run[i - |before|])
            && (rest != "" ==> text[|before| + |run|] == rest[0])
  {
  }

  lemma RestStarts(rest: string, allowed: string)
    requires !StartsIn(rest, allowed)
    ensures rest != "" ==> rest[0] !in allowed
  {
  }

  lemma CharClasses(text: string)
    ensures StartsIn(text, DIGITS) || StartsIn(text, "+-") ==> !StartsIn(text, SPACES)
    ensures StartsIn(text, DIGITS) ==> !StartsIn(text, "+-")
  {
  }

  lemma SignedStarts(blanks: string, sign: string, digits: string, rest: string)
    requires NumberParts(blanks, sign, digits, rest)
    ensures !StartsIn(sign + digits + rest, SPACES)
    ensures StartsIn(sign + digits + rest, "+-") <==> sign != ""
  {
    var signed := sign + digits + rest;
    if sign != "" {
      assert signed[0] == sign[0] && StartsIn(signed, "+-");
    } else if digits != "" {
      assert signed[0] == digits[0] && StartsIn(signed, DIGITS);
    } else {
      assert signed == rest;
    }
    CharClasses(signed);
  }

  lemma BlanksAndSign(blanks: string, sign: string, digits: string, rest: string)
    requires NumberParts(blanks, sign, digits, rest)
    ensures var text := blanks + sign + digits + rest;
            && SpanEnd(text, 0, SPACES) == |blanks|
            && (|blanks| < |text| && text[|blanks|] in "+-" <==> sign != "")
            && (|blanks| < |text| && text[|blanks|] == '-' <==> sign == "-")
  {
    hide AllIn, SpanEnd;
    var text, signed := blanks + sign + digits + rest, sign + digits + rest;
    SignedStarts(blanks, sign, digits, rest);
    assert text == "" + blanks + signed;
    assert signed != "" ==> text[|blanks|] == signed[0];
    assert sign != "" ==> signed[0] == sign[0];
    SpanOver("", blanks, signed, SPACES);
  }

  lemma DigitsAfter(before: string, digits: string, rest: string)
    requires AllIn(digits, DIGITS) && !StartsIn(rest, DIGITS)
    ensures var text := before + digits + rest;
            SpanEnd(text, |before|, DIGITS) == |before| + |digits| && text[|before|..|before| + |digits|] == digits
  {
    SpanOver(before, digits, rest, DIGITS);
  }

  /** The number read is that of the digits, negated after a minus sign, whatever follows. */
  lemma SignedPrefixReads(blanks: string, sign: string, digits: string, rest: string)
    requires NumberParts(blanks, sign, digits, rest)
    ensures SignedPrefix(blanks + sign + digits + rest)
         == if digits == "" then None else Some(if sign == "-" then -(Value(digits) as int) else Value(digits))
  {
    hide SignedPrefix, Value;
    BlanksAndSign(blanks, sign, digits, rest);
    DigitsAfter(blanks + sign, digits, rest);
    PrefixFrom(blanks + sign + digits + rest, |blanks|, |blanks| + |sign|, |blanks| + |sign| + |digits|);
  }

  lemma PrefixFrom(text: string, sign: nat, start: nat, end: nat)
    requires sign <= start <= end <= |text| && SpanEnd(text, 0, SPACES) == sign && SpanEnd(text, start, DIGITS) == end
    requires start == if sign < |text| && text[sign] in "+-" then sign + 1 else sign
    ensures SignedPrefix(text)
         == if start == end then None
            else Some(if text[sign] == '-' then -(Value(text[start..end]) as int) else Value(text[start..end]))
  {
  }

  /** `stoi` throws exactly without digits or outside the 32-bit range, `stoul` outside the 64-bit one. */
  lemma RangesAreChecked(text: string)
    ensures var v := SignedPrefix(text);
            && Stoi(text) == (if v.Some? && -0x8000_0000 <= v.value < 0x8000_0000 then v else None)
            && (Stoul(text).Some? <==> v.Some? && -0x1_0000_0000_0000_0000 < v.value < 0x1_0000_0000_0000_0000)
            && (Stoul(text).Some? ==>
                  Stoul(text).value == if v.value < 0 then v.value + 0x1_0000_0000_0000_0000 else v.value)
  {
  }

  /** Printing a number and converting it back, with or without something after the digits. */
  lemma DecimalConverts(n: nat, rest: string)
    requires rest == "" || rest[0] !in DIGITS
    ensures SignedPrefix(Decimal(n) + rest) == Some(n)
  {
    hide SignedPrefix, Value;
    var digits := Decimal(n);
    assert AllIn(digits, DIGITS) by {
      assert forall i | 0 <= i < |digits| :: digits[i] in digits;
    }
    SignedPrefixReads("", "", digits, rest);
    assert "" + "" + digits + rest == digits + rest;
  }

  lemma OccursInPrefix(text: string, pattern: string, n: nat, i: nat)
    requires n <= |text|
    ensures OccursAt(text[..n], pattern, i) <==> i + |pattern| <= n && OccursAt(text, pattern, i)
  {
  }

  lemma FindIs(text: string, pattern: string, start: nat, h: nat)
    requires start <= h && OccursAt(text, pattern, h)
    requires forall i | start <= i < h :: !OccursAt(text, pattern, i)
    ensures Find(text, pattern, start) == Some(h)
  {
    FindFirst(text, pattern, start);
  }

  lemma Mismatch(text: string, pattern: string, i: nat, j: nat)
    requires j < |pattern| && (i + j < |text| ==> pattern[j] != text[i + j])
    ensures !OccursAt(text, pattern, i)
  {
  }

  lemma OccursBetween(before: string, pattern: string, after: string)
    ensures OccursAt(before + pattern + after, pattern, |before|)
  {
  }

  /** A first occurrence is found again in every prefix long enough to hold it, and in no other. */
  lemma PrefixFind(text: string, pattern: string, n: nat)
    requires n <= |text|
    ensures var h := Find(text, pattern, 0);
            Find(text[..n], pattern, 0) == if h.Some? && h.value + |pattern| <= n then h else None
  {
    FindFirst(text, pattern, 0);
    FindFirst(text[..n], pattern, 0);
    var h, found := Find(text, pattern, 0), Find(text[..n], pattern, 0);
    if h.Some? {
      OccursInPrefix(text, pattern, n, h.value);
    }
    if found.Some? {
      OccursInPrefix(text, pattern, n, found.value);
    }
  }

  lemma SpanIs(text: string, start: nat, allowed: string, end: nat)
    requires start <= end <= |text|
    requires forall i | start <= i < end :: text[i] in allowed
    requires end < |text| ==> text[end] !in allowed
    ensures SpanEnd(text, start, allowed) == end
  {
  }
}

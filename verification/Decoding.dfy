/** Readers for objects whose fields come in a fixed order, and the texts they read. */
module Decoding {
  import opened Wrappers
  import opened Text
  import opened Escaping

  function StringField(lead: string, escaped: string, rest: string): string { lead + (escaped + "\"" + rest) }

  function NumberField(lead: string, number: string, rest: string): string { lead + (number + rest) }

  function Expect(text: string, literal: string): Option<string> {
    if |literal| <= |text| && text[..|literal|] == literal then Some(text[|literal|..]) else None
  }

  datatype Counted = Counted(value: nat, rest: string)

  function ReadCount(text: string): Option<Counted> {
    var end := SpanEnd(text, 0, DIGITS);
    assert forall c | c in text[..end] :: c in DIGITS;
    if end == 0 then None else Some(Counted(Value(text[..end]), text[end..]))
  }

  function ReadStringField(text: string, lead: string, strict: bool): Option<Scanned> {
    var content :- Expect(text, lead);
    Scan(content, strict)
  }

  function ReadNumberField(text: string, lead: string): Option<Counted> {
    var content :- Expect(text, lead);
    ReadCount(content)
  }

  lemma ExpectReads(literal: string, rest: string)
    ensures Expect(literal + rest, literal) == Some(rest)
  {
  }

  lemma NumberFieldReads(lead: string, n: nat, rest: string)
    requires rest != "" && rest[0] !in DIGITS
    ensures ReadNumberField(NumberField(lead, Decimal(n), rest), lead) == Some(Counted(n, rest))
  {
    var text := Decimal(n) + rest;
    ExpectReads(lead, text);
    assert forall i | 0 <= i < |Decimal(n)| :: text[i] == Decimal(n)[i] && Decimal(n)[i] in Decimal(n);
    SpanIs(text, 0, DIGITS, |Decimal(n)|);
    assert text[..|Decimal(n)|] == Decimal(n);
  }
}

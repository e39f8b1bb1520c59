/** The PromptPay QR payload of packages/shared/src/promptpay.ts: the EMV-TLV printer with its nested
    merchant template and CRC, and a decoder that recovers what was encoded. */
module PromptPay {
  import opened Numerals
  import opened Money
  import opened Crc16
  import opened Options

  datatype Error = BadTag | ValueTooLong | InvalidId

  datatype Result<+T> = Ok(value: T) | Err(error: Error) {
    predicate IsFailure() { Err? }
    function PropagateFailure<U>(): Result<U>
      requires Err?
    {
      Err(error)
    }
    function Extract(): T
      requires Ok?
    {
      value
    }
  }

  // ----- the encoder -----------------------------------------------------------------

  datatype Field = Field(tag: string, value: string)

  /** Tag, length and value. */
  function Text(f: Field): string {
    f.tag + PadStart(Numeral(|f.value|, 10), 2) + f.value
  }

  function Tlv(tag: string, value: string): (r: Result<string>)
    ensures |tag| == 2 && |value| <= 99 ==> r == Ok(Text(Field(tag, value)))
    ensures |tag| == 2 && |value| > 99 ==> r == Err(ValueTooLong)
  {
    if |tag| != 2 then Err(BadTag)
    else
      var length := PadStart(Numeral(|value|, 10), 2);
      TwoDigits(|value|);
      if |length| != 2 then Err(ValueTooLong) else Ok(tag + length + value)
  }

  lemma TwoDigits(n: nat)
    ensures |PadStart(Numeral(n, 10), 2)| == 2 <==> n <= 99
    ensures Value(PadStart(Numeral(n, 10), 2), 10) == n
    ensures AllDigits(PadStart(Numeral(n, 10), 2))
  {
    assert Power(10, 2) == 100;
    PaddedNumeral(n, 10, 2);
    NumeralDigits(n);
    PadStartDigits(Numeral(n, 10), 2);
  }

  function DigitsOnly(input: string): (digits: string)
    ensures AllDigits(digits)
  {
    if input == "" then ""
    else if '0' <= input[0] <= '9' then [input[0]] + DigitsOnly(input[1..])
    else DigitsOnly(input[1..])
  }

  datatype Kind = Phone | NationalId | EWallet

  datatype Id = Id(kind: Kind, value: string)

  function SubTag(kind: Kind): string {
    match kind
    case Phone => "01"
    case NationalId => "02"
    case EWallet => "03"
  }

  function NormalizePromptPayId(raw: string): (r: Result<Id>)
    ensures r.Ok? ==> |r.value.value| <= 15 && AllDigits(r.value.value)
  {
    var d := DigitsOnly(raw);
    if |d| == 10 && d[0] == '0' then Ok(Id(Phone, "0066" + d[1..]))
    else if |d| == 13 then Ok(Id(NationalId, d))
    else if |d| == 15 then Ok(Id(EWallet, d))
    else Err(InvalidId)
  }

  lemma {:induction false} DigitsOnlyKeepsDigits(input: string)
    requires AllDigits(input)
    ensures DigitsOnly(input) == input
    decreases |input|
  {
    if input != "" {
      DigitsOnlyKeepsDigits(input[1..]);
    }
  }

  /** What is left are the digits, in their order: a digit stays, anything else goes, and the parts of a text are
      treated apart. */
  lemma {:induction false} DigitsOnlyConcat(a: string, b: string)
    ensures DigitsOnly(a + b) == DigitsOnly(a) + DigitsOnly(b)
    decreases |a|
  {
    if a == "" {
      assert a + b == b;
    } else {
      assert (a + b)[0] == a[0] && (a + b)[1..] == a[1..] + b;
      DigitsOnlyConcat(a[1..], b);
    }
  }

  lemma DigitsOnlyOne(c: char)
    ensures DigitsOnly([c]) == if '0' <= c <= '9' then [c] else ""
  {
    assert [c][1..] == "";
  }

  /** The digits somebody with this id enters. */
  function EnteredDigits(id: Id): string {
    if id.kind.Phone? && |id.value| >= 4 then "0" + id.value[4..] else id.value
  }

  /** Two ids are normalized alike exactly if they have the same digits, whatever is written between them;
      the value has the 13 or 15 digits of its sub-field. */
  lemma NormalizeFaithful(a: string, b: string)
    requires NormalizePromptPayId(a).Ok?
    ensures NormalizePromptPayId(a) == NormalizePromptPayId(b) <==> DigitsOnly(a) == DigitsOnly(b)
    ensures NormalizePromptPayId(DigitsOnly(a)) == NormalizePromptPayId(a)
    ensures var id := NormalizePromptPayId(a).value; |id.value| == if id.kind.EWallet? then 15 else 13
  {
    var d, e := DigitsOnly(a), DigitsOnly(b);
    DigitsOnlyKeepsDigits(d);
    if NormalizePromptPayId(a) == NormalizePromptPayId(b) && |d| == 10 {
      assert ("0066" + d[1..])[4..] == d[1..] && ("0066" + e[1..])[4..] == e[1..];
      assert d == [d[0]] + d[1..] && e == [e[0]] + e[1..];
    }
  }

  const AID := "A000000677010111"

  function Payload(promptPayId: string, amount: Option<Decimal>): Result<string> {
    var norm :- NormalizePromptPayId(promptPayId);
    var aid :- Tlv("00", AID);
    var account :- Tlv(SubTag(norm.kind), norm.value);
    var format :- Tlv("00", "01");
    var initiation :- Tlv("01", "11");
    var merchant :- Tlv("29", aid + account);
    var currency :- Tlv("53", "764");
    var amountField :- if amount.None? then Ok("") else Tlv("54", ToStorage(amount.value));
    var country :- Tlv("58", "TH");
    var withoutCrc := format + initiation + merchant + currency + amountField + country + "6304";
    Ok(withoutCrc + Crc(withoutCrc))
  }

  function Concat(fields: seq<string>): string {
    if fields == [] then "" else Concat(fields[..|fields| - 1]) + fields[|fields| - 1]
  }

  lemma ConcatPush(fields: seq<string>, field: string)
    ensures Concat(fields + [field]) == Concat(fields) + field
  {
    assert (fields + [field])[..|fields|] == fields;
  }

  lemma ConcatFour(a: string, b: string, c: string, d: string)
    ensures Concat([a, b, c, d]) == a + b + c + d
  {
    ConcatPush([], a);
    ConcatPush([a], b);
    ConcatPush([a, b], c);
    ConcatPush([a, b, c], d);
    assert [] + [a] == [a] && [a] + [b] == [a, b] && [a, b] + [c] == [a, b, c];
    assert [a, b, c] + [d] == [a, b, c, d];
  }

  method GeneratePromptPayPayload(promptPayId: string, amount: Option<Decimal>) returns (r: Result<string>)
    ensures r == Payload(promptPayId, amount)
  {
    var norm :- NormalizePromptPayId(promptPayId);
    var aid :- Tlv("00", AID);
    var account :- Tlv(SubTag(norm.kind), norm.value);
    var merchantAccount := aid + account;
    var format :- Tlv("00", "01");
    var initiation :- Tlv("01", "11");
    var merchant :- Tlv("29", merchantAccount);
    var currency :- Tlv("53", "764");
    var fields := [format, initiation, merchant, currency];
    ConcatFour(format, initiation, merchant, currency);
    if amount.Some? {
      var amountField :- Tlv("54", ToStorage(amount.value));
      ConcatPush(fields, amountField);
      fields := fields + [amountField];
    } else {
      assert format + initiation + merchant + currency + "" == format + initiation + merchant + currency;
    }
    var country :- Tlv("58", "TH");
    ConcatPush(fields, country);
    fields := fields + [country];
    var withoutCrc := Concat(fields) + "6304";
    var crc := Crc16Ccitt(withoutCrc);
    r := Ok(withoutCrc + crc);
  }

  // ----- the decoder -----------------------------------------------------------------

  function Parse(s: string): Option<seq<Field>>
    decreases |s|
  {
    if s == "" then Some([])
    else if |s| < 4 || !AllDigits(s[2..4]) then None
    else
      var n := Value(s[2..4], 10);
      if |s| < 4 + n then None
      else
        match Parse(s[4 + n..])
        case None => None
        case Some(rest) => Some([Field(s[..2], s[4..4 + n])] + rest)
  }

  predicate Printable(fields: seq<Field>) {
    forall i :: 0 <= i < |fields| ==> |fields[i].tag| == 2 && |fields[i].value| <= 99
  }

  function Print(fields: seq<Field>): string {
    if fields == [] then "" else Text(fields[0]) + Print(fields[1..])
  }

  lemma ParseText(f: Field, tail: seq<Field>, rest: string)
    requires |f.tag| == 2 && |f.value| <= 99 && Parse(rest) == Some(tail)
    ensures Parse(Text(f) + rest) == Some([f] + tail)
  {
    TwoDigits(|f.value|);
    var length := PadStart(Numeral(|f.value|, 10), 2);
    var s := Text(f) + rest;
    assert s == f.tag + length + f.value + rest;
    assert s[..2] == f.tag && s[2..4] == length && s[4..4 + |f.value|] == f.value && s[4 + |f.value|..] == rest;
  }

  /** The parser reads back any printed list of fields. */
  lemma {:induction false} ParsePrint(fields: seq<Field>)
    requires Printable(fields)
    ensures Parse(Print(fields)) == Some(fields)
    decreases |fields|
  {
    if fields != [] {
      var f, tail := fields[0], fields[1..];
      ParsePrint(tail);
      ParseText(f, tail, Print(tail));
      PrintCons(f, tail);
      assert [f] + tail == fields;
    }
  }

  function Lookup(fields: seq<Field>, tag: string): Option<string> {
    if fields == [] then None
    else if fields[0].tag == tag then Some(fields[0].value)
    else Lookup(fields[1..], tag)
  }

  datatype Decoded = Decoded(id: Id, amount: Option<string>)

  /** The CRC field is last, and covers everything before its four digits. */
  predicate CrcHolds(s: string) {
    |s| >= 8 && s[|s| - 8..|s| - 4] == "6304" && Crc(s[..|s| - 4]) == s[|s| - 4..]
  }

  function DecodeAccountFields(fields: seq<Field>): Option<Id> {
    if Lookup(fields, "00") != Some(AID) then None
    else if Lookup(fields, "01").Some? then Some(Id(Phone, Lookup(fields, "01").value))
    else if Lookup(fields, "02").Some? then Some(Id(NationalId, Lookup(fields, "02").value))
    else if Lookup(fields, "03").Some? then Some(Id(EWallet, Lookup(fields, "03").value))
    else None
  }

  function DecodeAccount(template: string): Option<Id> {
    match Parse(template)
    case None => None
    case Some(fields) => DecodeAccountFields(fields)
  }

  function Decode(s: string): Option<Decoded> {
    if !CrcHolds(s) then None
    else
      match Parse(s)
      case None => None
      case Some(fields) => DecodeFields(fields)
  }

  function DecodeFields(fields: seq<Field>): Option<Decoded> {
    if Lookup(fields, "00") != Some("01") || Lookup(fields, "01") != Some("11")
       || Lookup(fields, "53") != Some("764") || Lookup(fields, "58") != Some("TH")
       || Lookup(fields, "29").None? || DecodeAccount(Lookup(fields, "29").value).None?
    then None
    else Some(Decoded(DecodeAccount(Lookup(fields, "29").value).value, Lookup(fields, "54")))
  }

  // ----- round trip ------------------------------------------------------------------

  function AmountText(amount: Option<Decimal>): Option<string> {
    if amount.None? then None else Some(ToStorage(amount.value))
  }

  /** What the caller can check: a usable id, and an amount that prints in at most 99 characters. */
  predicate Encodable(promptPayId: string, amount: Option<Decimal>) {
    && NormalizePromptPayId(promptPayId).Ok?
    && (amount.Some? ==> |ToStorage(amount.value)| <= 99)
  }

  function AccountFields(id: Id): seq<Field> {
    [Field("00", AID), Field(SubTag(id.kind), id.value)]
  }

  function AmountFields(amount: Option<string>): seq<Field> {
    if amount.None? then [] else [Field("54", amount.value)]
  }

  function BodyFields(id: Id, amount: Option<string>): seq<Field> {
    [Field("00", "01"), Field("01", "11"), Field("29", Print(AccountFields(id))), Field("53", "764")]
    + AmountFields(amount) + [Field("58", "TH")]
  }

  lemma PrintCons(f: Field, rest: seq<Field>)
    ensures Print([f] + rest) == Text(f) + Print(rest)
  {
    assert ([f] + rest)[1..] == rest;
  }

  lemma {:induction false} PrintAppend(a: seq<Field>, b: seq<Field>)
    ensures Print(a + b) == Print(a) + Print(b)
    decreases |a|
  {
    if a == [] {
      assert a + b == b;
    } else {
      assert (a + b)[1..] == a[1..] + b;
      PrintAppend(a[1..], b);
    }
  }

  lemma PrintOne(f: Field)
    ensures Print([f]) == Text(f)
  {
    PrintCons(f, []);
    assert [f] + [] == [f];
  }

  lemma PrintTwo(f: Field, g: Field)
    ensures Print([f, g]) == Text(f) + Text(g)
  {
    PrintCons(f, [g]);
    PrintOne(g);
    assert [f] + [g] == [f, g];
  }

  lemma PrintAccount(id: Id)
    requires |id.value| <= 15
    ensures Print(AccountFields(id)) == Text(Field("00", AID)) + Text(Field(SubTag(id.kind), id.value))
    ensures |Print(AccountFields(id))| <= 39
  {
    PrintTwo(Field("00", AID), Field(SubTag(id.kind), id.value));
    TwoDigits(|AID|);
    TwoDigits(|id.value|);
  }

  lemma LookupCons(f: Field, rest: seq<Field>, tag: string)
    ensures Lookup([f] + rest, tag) == if f.tag == tag then Some(f.value) else Lookup(rest, tag)
  {
    assert ([f] + rest)[1..] == rest;
  }

  lemma DecodePrintedAccount(id: Id)
    requires |id.value| <= 15
    ensures DecodeAccount(Print(AccountFields(id))) == Some(id)
  {
    ParsePrint(AccountFields(id));
    forall tag
      ensures Lookup(AccountFields(id), tag) == AccountEntry(id, tag)
    {
      LookupAccount(id, tag);
    }
    AccountOfEntries(AccountFields(id), id);
  }

  function AccountEntry(id: Id, tag: string): Option<string> {
    if tag == "00" then Some(AID) else if tag == SubTag(id.kind) then Some(id.value) else None
  }

  lemma AccountOfEntries(fields: seq<Field>, id: Id)
    requires forall tag :: Lookup(fields, tag) == AccountEntry(id, tag)
    ensures DecodeAccountFields(fields) == Some(id)
  {
  }

  lemma LookupAccount(id: Id, tag: string)
    ensures Lookup(AccountFields(id), tag) == AccountEntry(id, tag)
  {
    var f, g := Field("00", AID), Field(SubTag(id.kind), id.value);
    assert AccountFields(id) == [f] + [g] && [g] + [] == [g];
    LookupCons(f, [g], tag);
    LookupCons(g, [], tag);
  }

  lemma PrintFour(f1: Field, f2: Field, f3: Field, f4: Field)
    ensures Print([f1, f2, f3, f4]) == Text(f1) + Text(f2) + Text(f3) + Text(f4)
  {
    PrintTwo(f1, f2);
    PrintTwo(f3, f4);
    PrintAppend([f1, f2], [f3, f4]);
    assert [f1, f2] + [f3, f4] == [f1, f2, f3, f4];
  }

  lemma PrintAmount(amount: Option<string>)
    ensures Print(AmountFields(amount)) == if amount.None? then "" else Text(Field("54", amount.value))
  {
    if amount.Some? {
      PrintOne(Field("54", amount.value));
    }
  }

  lemma PrintBody(id: Id, amount: Option<string>)
    ensures Print(BodyFields(id, amount))
         == Text(Field("00", "01")) + Text(Field("01", "11"))
          + Text(Field("29", Print(AccountFields(id)))) + Text(Field("53", "764"))
          + (if amount.None? then "" else Text(Field("54", amount.value)))
          + Text(Field("58", "TH"))
  {
    var f1, f2 := Field("00", "01"), Field("01", "11");
    var f3, f4 := Field("29", Print(AccountFields(id))), Field("53", "764");
    PrintFour(f1, f2, f3, f4);
    PrintAmount(amount);
    PrintOne(Field("58", "TH"));
    PrintAppend([f1, f2, f3, f4], AmountFields(amount));
    PrintAppend([f1, f2, f3, f4] + AmountFields(amount), [Field("58", "TH")]);
  }

  /** The body of the payload, up to and including the tag and length of the CRC field. */
  function Body(id: Id, amount: Option<string>): string {
    Print(BodyFields(id, amount)) + "6304"
  }

  lemma PayloadIsBodyAndCrc(promptPayId: string, amount: Option<Decimal>)
    ensures Payload(promptPayId, amount).Ok? <==> Encodable(promptPayId, amount)
    ensures Encodable(promptPayId, amount) ==>
      var body := Body(NormalizePromptPayId(promptPayId).value, AmountText(amount));
      Payload(promptPayId, amount) == Ok(body + Crc(body))
  {
    var norm := NormalizePromptPayId(promptPayId);
    if norm.Ok? {
      PrintAccount(norm.value);
      PrintBody(norm.value, AmountText(amount));
    }
  }

  lemma CrcField(crc: string)
    requires |crc| == 4
    ensures Text(Field("63", crc)) == "6304" + crc
  {
    assert Numeral(4, 10) == "4";
    assert PadStart("4", 2) == "04";
  }

  lemma PrintableBody(id: Id, amount: Option<string>, crc: string)
    requires |id.value| <= 15 && |crc| == 4 && (amount.Some? ==> |amount.value| <= 99)
    ensures Printable(BodyFields(id, amount) + [Field("63", crc)])
  {
    PrintAccount(id);
  }

  lemma ParseBodyAndCrc(id: Id, amount: Option<string>, crc: string)
    requires |id.value| <= 15 && |crc| == 4 && (amount.Some? ==> |amount.value| <= 99)
    ensures Parse(Body(id, amount) + crc) == Some(BodyFields(id, amount) + [Field("63", crc)])
  {
    PrintableBody(id, amount, crc);
    PrintedBodyAndCrc(BodyFields(id, amount), crc);
    ParsePrint(BodyFields(id, amount) + [Field("63", crc)]);
  }

  lemma PrintedBodyAndCrc(fields: seq<Field>, crc: string)
    requires |crc| == 4
    ensures Print(fields) + "6304" + crc == Print(fields + [Field("63", crc)])
  {
    CrcField(crc);
    PrintOne(Field("63", crc));
    PrintAppend(fields, [Field("63", crc)]);
  }

  function Expected(id: Id, amount: Option<string>, tag: string): Option<string> {
    if tag == "00" then Some("01")
    else if tag == "01" then Some("11")
    else if tag == "29" then Some(Print(AccountFields(id)))
    else if tag == "53" then Some("764")
    else if tag == "54" then amount
    else if tag == "58" then Some("TH")
    else None
  }

  lemma LookupTail(amount: Option<string>, crc: string, tag: string)
    requires tag != "63"
    ensures Lookup(AmountFields(amount) + ([Field("58", "TH")] + [Field("63", crc)]), tag)
         == if tag == "54" then amount else if tag == "58" then Some("TH") else None
  {
    var last := Field("63", crc);
    var r6 := [Field("58", "TH")] + [last];
    LookupCons(last, [], tag);
    assert [last] + [] == [last];
    LookupCons(Field("58", "TH"), [last], tag);
    if amount.Some? {
      LookupCons(Field("54", amount.value), r6, tag);
    } else {
      assert AmountFields(amount) + r6 == r6;
    }
  }

  lemma LookupFour(f1: Field, f2: Field, f3: Field, f4: Field, rest: seq<Field>, tag: string)
    ensures Lookup([f1] + ([f2] + ([f3] + ([f4] + rest))), tag)
         == if tag == f1.tag then Some(f1.value) else if tag == f2.tag then Some(f2.value)
            else if tag == f3.tag then Some(f3.value) else if tag == f4.tag then Some(f4.value)
            else Lookup(rest, tag)
  {
    LookupCons(f4, rest, tag);
    LookupCons(f3, [f4] + rest, tag);
    LookupCons(f2, [f3] + ([f4] + rest), tag);
    LookupCons(f1, [f2] + ([f3] + ([f4] + rest)), tag);
  }

  lemma LookupBody(id: Id, amount: Option<string>, crc: string, tag: string)
    requires tag != "63"
    ensures Lookup(BodyFields(id, amount) + [Field("63", crc)], tag) == Expected(id, amount, tag)
  {
    var f1, f2 := Field("00", "01"), Field("01", "11");
    var f3, f4 := Field("29", Print(AccountFields(id))), Field("53", "764");
    var rest := AmountFields(amount) + ([Field("58", "TH")] + [Field("63", crc)]);
    LookupTail(amount, crc, tag);
    LookupFour(f1, f2, f3, f4, rest, tag);
    assert BodyFields(id, amount) + [Field("63", crc)] == [f1] + ([f2] + ([f3] + ([f4] + rest)));
  }

  lemma CrcAppended(body: string)
    requires EndsIn6304(body)
    ensures CrcHolds(body + Crc(body)) && |Crc(body)| == 4
  {
    CrcFaithful(body, "");
    var s := body + Crc(body);
    assert s[..|s| - 4] == body && s[|s| - 4..] == Crc(body) && s[|s| - 8..|s| - 4] == "6304";
  }

  lemma DecodeBodyAndCrc(id: Id, amount: Option<string>)
    requires |id.value| <= 15 && (amount.Some? ==> |amount.value| <= 99)
    ensures Decode(Body(id, amount) + Crc(Body(id, amount))) == Some(Decoded(id, amount))
  {
    var crc := Crc(Body(id, amount));
    CrcAppended(Body(id, amount));
    ParseBodyAndCrc(id, amount, crc);
    DecodeBodyFields(id, amount, crc);
  }

  lemma DecodeBodyFields(id: Id, amount: Option<string>, crc: string)
    requires |id.value| <= 15
    ensures DecodeFields(BodyFields(id, amount) + [Field("63", crc)]) == Some(Decoded(id, amount))
  {
    forall tag | tag != "63"
      ensures Lookup(BodyFields(id, amount) + [Field("63", crc)], tag) == Expected(id, amount, tag)
    {
      LookupBody(id, amount, crc, tag);
    }
    DecodeExpected(BodyFields(id, amount) + [Field("63", crc)], id, amount);
  }

  lemma DecodeExpected(fields: seq<Field>, id: Id, amount: Option<string>)
    requires |id.value| <= 15
    requires forall tag :: tag != "63" ==> Lookup(fields, tag) == Expected(id, amount, tag)
    ensures DecodeFields(fields) == Some(Decoded(id, amount))
  {
    DecodePrintedAccount(id);
  }

  /** A payload is produced exactly for encodable inputs, and decodes to the normalized id and the amount text. */
  lemma DecodeInvertsPayload(promptPayId: string, amount: Option<Decimal>)
    ensures Payload(promptPayId, amount).Ok? <==> Encodable(promptPayId, amount)
    ensures Payload(promptPayId, amount).Ok? ==>
      Decode(Payload(promptPayId, amount).value)
      == Some(Decoded(NormalizePromptPayId(promptPayId).value, AmountText(amount)))
  {
    PayloadIsBodyAndCrc(promptPayId, amount);
    if Encodable(promptPayId, amount) {
      DecodeBodyAndCrc(NormalizePromptPayId(promptPayId).value, AmountText(amount));
    }
  }

  /** What is read from a payload, in terms of what was entered: ten digits are a phone with the country code 66 for
      its leading zero, thirteen a national id, fifteen a wallet, and any other id is refused. */
  lemma DecodedKind(promptPayId: string, amount: Option<Decimal>)
    ensures var digits := DigitsOnly(promptPayId);
      && (NormalizePromptPayId(promptPayId).Ok? <==>
            (|digits| == 10 && digits[0] == '0') || |digits| == 13 || |digits| == 15)
      && (Payload(promptPayId, amount).Ok? <==>
            NormalizePromptPayId(promptPayId).Ok? && (amount.Some? ==> |ToStorage(amount.value)| <= 99))
    ensures Payload(promptPayId, amount).Ok? ==>
      var digits, decoded := DigitsOnly(promptPayId), Decode(Payload(promptPayId, amount).value);
      && decoded.Some?
      && (decoded.value.id.kind.Phone? <==> |digits| == 10)
      && (decoded.value.id.kind.NationalId? <==> |digits| == 13)
      && (decoded.value.id.kind.EWallet? <==> |digits| == 15)
      && (decoded.value.id.kind.Phone? ==> |decoded.value.id.value| == 13 && decoded.value.id.value[..4] == "0066")
      && EnteredDigits(decoded.value.id) == digits
  {
    DecodeInvertsPayload(promptPayId, amount);
    var digits := DigitsOnly(promptPayId);
    if |digits| == 10 {
      assert ("0066" + digits[1..])[..4] == "0066" && ("0066" + digits[1..])[4..] == digits[1..];
      assert digits == [digits[0]] + digits[1..];
    }
  }

  /** The tag and the length of an id. */
  function IdHead(kind: Kind): string {
    match kind case Phone => "0113" case NationalId => "0213" case EWallet => "0315"
  }

  /** The account field of a payload, as it is printed. */
  function AccountText(id: Id): string {
    (if id.kind.EWallet? then "2939" else "2937") + ("0016A000000677010111" + (IdHead(id.kind) + id.value))
  }

  lemma Lengths()
    ensures PadStart(Numeral(2, 10), 2) == "02" && PadStart(Numeral(3, 10), 2) == "03"
    ensures PadStart(Numeral(13, 10), 2) == "13" && PadStart(Numeral(15, 10), 2) == "15"
    ensures PadStart(Numeral(16, 10), 2) == "16"
    ensures PadStart(Numeral(37, 10), 2) == "37" && PadStart(Numeral(39, 10), 2) == "39"
  {
    assert Numeral(2, 10) == "2" && Numeral(3, 10) == "3" && Numeral(1, 10) == "1";
    assert PadStart("2", 2) == "02" && PadStart("3", 2) == "03";
    assert Numeral(13, 10) == "1" + "3" && Numeral(15, 10) == "1" + "5" && Numeral(16, 10) == "1" + "6";
    assert Numeral(37, 10) == "3" + "7" && Numeral(39, 10) == "3" + "9";
  }

  lemma FixedTexts()
    ensures Text(Field("00", "01")) == "000201" && Text(Field("01", "11")) == "010211"
    ensures Text(Field("53", "764")) == "5303764" && Text(Field("58", "TH")) == "5802TH"
  {
    Lengths();
  }

  lemma AidText()
    ensures Text(Field("00", AID)) == "0016A000000677010111"
  {
    Lengths();
  }

  predicate IsFullLength(id: Id) {
    |id.value| == if id.kind.EWallet? then 15 else 13
  }

  lemma IdText(id: Id)
    requires IsFullLength(id)
    ensures Text(Field(SubTag(id.kind), id.value)) == IdHead(id.kind) + id.value
  {
    Lengths();
  }

  lemma AccountIs(id: Id)
    requires IsFullLength(id)
    ensures Text(Field("29", Print(AccountFields(id)))) == AccountText(id)
  {
    PrintAccount(id);
    AidText();
    IdText(id);
    HeadOfAccount("0016A000000677010111" + (IdHead(id.kind) + id.value), id.kind);
  }

  lemma HeadOfAccount(template: string, kind: Kind)
    requires |template| == if kind.EWallet? then 39 else 37
    ensures Text(Field("29", template)) == (if kind.EWallet? then "2939" else "2937") + template
  {
    Lengths();
  }

  /** The body of a payload, character by character. */
  function BodyText(id: Id, amount: Option<Decimal>): string {
    "000201" + "010211" + AccountText(id) + "5303764"
    + (if amount.None? then "" else Text(Field("54", ToStorage(amount.value)))) + "5802TH" + "6304"
  }

  /** A payload is this text with its CRC. */
  lemma PayloadText(promptPayId: string, amount: Option<Decimal>)
    requires Payload(promptPayId, amount).Ok?
    ensures NormalizePromptPayId(promptPayId).Ok?
    ensures var body := BodyText(NormalizePromptPayId(promptPayId).value, amount);
      Payload(promptPayId, amount).value == body + Crc(body)
  {
    PayloadIsBodyAndCrc(promptPayId, amount);
    NormalizeFaithful(promptPayId, promptPayId);
    BodyIs(NormalizePromptPayId(promptPayId).value, amount);
  }

  lemma BodyIs(id: Id, amount: Option<Decimal>)
    requires IsFullLength(id)
    ensures Body(id, AmountText(amount)) == BodyText(id, amount)
  {
    PrintBody(id, AmountText(amount));
    AccountIs(id);
    FixedTexts();
  }

  /** Equal payloads come from ids with the same digits and from amounts that are stored alike. */
  lemma PayloadInjective(id1: string, amount1: Option<Decimal>, id2: string, amount2: Option<Decimal>)
    requires Payload(id1, amount1).Ok? && Payload(id1, amount1) == Payload(id2, amount2)
    ensures NormalizePromptPayId(id1) == NormalizePromptPayId(id2) && DigitsOnly(id1) == DigitsOnly(id2)
    ensures amount1.Some? <==> amount2.Some?
    ensures amount1.Some? ==>
      && Satang(amount1.value) == Satang(amount2.value)
      && (amount1.value.coef < 0 <==> amount2.value.coef < 0)
  {
    PayloadIsBodyAndCrc(id1, amount1);
    NormalizeFaithful(id1, id2);
    DecodeInvertsPayload(id1, amount1);
    DecodeInvertsPayload(id2, amount2);
    if amount1.Some? {
      StorageReadsBack(amount1.value);
      StorageReadsBack(amount2.value);
    }
  }

  // ----- damage ----------------------------------------------------------------------

  lemma TextBytes(f: Field)
    requires Bytes(f.tag) && Bytes(f.value)
    ensures Bytes(Text(f))
  {
    NumeralDigits(|f.value|);
    PadStartDigits(Numeral(|f.value|, 10), 2);
  }

  lemma StorageBytes(x: Decimal)
    ensures Bytes(ToStorage(x))
  {
    var satang := Abs(Satang(x));
    NumeralDigits(satang / 100);
    NumeralDigits(satang % 100);
    PadStartDigits(Numeral(satang % 100, 10), 2);
  }

  lemma {:induction false} PrintBytes(fields: seq<Field>)
    requires forall i :: 0 <= i < |fields| ==> Bytes(fields[i].tag) && Bytes(fields[i].value)
    ensures Bytes(Print(fields))
    decreases |fields|
  {
    if fields != [] {
      TextBytes(fields[0]);
      PrintBytes(fields[1..]);
    }
  }

  lemma BodyBytes(id: Id, amount: Option<string>)
    requires Bytes(id.value) && (amount.Some? ==> Bytes(amount.value))
    ensures Bytes(Body(id, amount))
  {
    PrintBytes(AccountFields(id));
    PrintBytes(BodyFields(id, amount));
  }

  /** Damage to one or two neighbouring characters of a payload, wherever it hits, is always rejected. */
  lemma DamageRejected(promptPayId: string, amount: Option<Decimal>, damaged: string, k: nat)
    requires Payload(promptPayId, amount).Ok?
    requires var payload := Payload(promptPayId, amount).value;
      && |damaged| == |payload| && k < |payload| && Bytes(damaged)
      && forall i :: 0 <= i < |payload| && i != k && i != k + 1 ==> damaged[i] == payload[i]
    ensures Decode(damaged).Some? <==> damaged == Payload(promptPayId, amount).value
  {
    DecodeInvertsPayload(promptPayId, amount);
    PayloadIsBodyAndCrc(promptPayId, amount);
    var id, text := NormalizePromptPayId(promptPayId).value, AmountText(amount);
    if amount.Some? {
      StorageBytes(amount.value);
    }
    BodyBytes(id, text);
    if CrcHolds(damaged) {
      CrcFaithful(Body(id, text), "");
      DamagedBody(Body(id, text), damaged, k);
    }
  }

  lemma DamagedBody(body: string, damaged: string, k: nat)
    requires Bytes(body) && Bytes(damaged) && EndsIn6304(body) && |Crc(body)| == 4 && CrcHolds(damaged)
    requires var payload := body + Crc(body);
      && |damaged| == |payload| && k < |payload|
      && forall i :: 0 <= i < |payload| && i != k && i != k + 1 ==> damaged[i] == payload[i]
    ensures damaged == body + Crc(body)
  {
    var n := |body|;
    assert damaged == damaged[..n] + damaged[n..];
    if k >= n - 1 {
      assert damaged[n - 1] == damaged[n - 4..n][3] == '4';
      assert body[n - 1] == body[n - 4..][3] == '4';
      PrefixKept(body, Crc(body), damaged);
    } else {
      SuffixKept(body, Crc(body), damaged, k);
      AdjacentErrorsDetected(body, damaged[..n], k);
    }
  }

  lemma PrefixKept(a: string, b: string, damaged: string)
    requires |a| <= |damaged|
    requires forall i :: 0 <= i < |a| - 1 ==> damaged[i] == (a + b)[i]
    requires a != "" ==> damaged[|a| - 1] == a[|a| - 1]
    ensures damaged[..|a|] == a
  {
    forall i | 0 <= i < |a|
      ensures damaged[i] == a[i]
    {
      assert (a + b)[i] == a[i];
    }
  }

  lemma SuffixKept(a: string, b: string, damaged: string, k: nat)
    requires |damaged| == |a| + |b| && k + 1 < |a|
    requires forall i :: 0 <= i < |damaged| && i != k && i != k + 1 ==> damaged[i] == (a + b)[i]
    ensures damaged[|a|..] == b
    ensures forall i :: 0 <= i < |a| && i != k && i != k + 1 ==> a[i] == damaged[..|a|][i]
  {
    forall i | 0 <= i < |b|
      ensures damaged[|a|..][i] == b[i]
    {
      assert (a + b)[|a| + i] == b[i];
    }
    forall i | 0 <= i < |a| && i != k && i != k + 1
      ensures a[i] == damaged[..|a|][i]
    {
      assert (a + b)[i] == a[i];
    }
  }

  predicate EndsIn6304(s: string) {
    |s| >= 4 && s[|s| - 4..] == "6304"
  }

  /** A stored total always fits the amount field. */
  lemma StoredTotalEncodable(promptPayId: string, total: int)
    requires FitsColumn(total)
    ensures Encodable(promptPayId, Some(Decimal(total, 2))) <==> NormalizePromptPayId(promptPayId).Ok?
  {
    var satang := Abs(Satang(Decimal(total, 2)));
    assert Power(10, 0) == 1 && Power(10, 8) == 100_000_000;
    assert Power(10, 2) == 100;
    NumeralLength(satang / 100, 10, 8);
    PaddedNumeral(satang % 100, 10, 2);
  }
}

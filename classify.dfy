/** parseMessage: what the handler does with one decoded message, reduced to the branch it
    takes and what it appends to the amount log (graph.log). Terminal output is left out. */
module Classify {
  import opened Wrappers
  import opened Numerals
  import opened Json
  import opened EcmaParseInt

  const AmountKey := "totalAmountRaised"

  datatype Outcome =
    | ParseFailed                       // JSON.parse threw; the catch block reports it
    | Unexpected                        // not an array, or an empty array
    | Reward
    | MissingAmount                     // a fact frame whose totalAmountRaised is falsy
    | FactAmount(amount: Option<int>)   // a fact frame; parseInt's result (None is NaN) is logged
    | Other(eventType: string)          // any other element [3], as the template literal prints it
    | ConversionFailed                  // a value could not be turned into text; the catch reports it

  /** The entries one message appends to the amount log. */
  function AmountWrites(o: Outcome): (w: seq<Option<int>>)
    ensures |w| <= 1
    ensures w != [] <==> o.FactAmount?
    ensures o.FactAmount? ==> w[0] == o.amount
  {
    if o.FactAmount? then [o.amount] else []
  }

  /** The shape the handler accepts: an array with at least one element. */
  predicate IsFrame(v: JsonValue) {
    v.JArr? && |v.elems| > 0
  }

  /** `factData?.totalAmountRaised`: only an object can own the member; on anything else,
      null and undefined included, the read gives undefined. */
  function AmountField(factData: Option<JsonValue>): (r: Option<JsonValue>)
    ensures r.Some? <==> factData.Some? && factData.value.JObj? && AmountKey in factData.value.fields
    ensures r.Some? ==> r.value == factData.value.fields[AmountKey]
  {
    match factData
    case Some(JObj(m)) => if AmountKey in m then Some(m[AmountKey]) else None
    case _ => None
  }

  /** The fact branch, given element [4]: a falsy amount returns early; otherwise the amount
      is printed through a template literal and parsed with parseInt, and the result is
      logged, NaN included. */
  function FactOutcome(factData: Option<JsonValue>): (o: Outcome)
    ensures o.MissingAmount? <==> !Truthy(AmountField(factData))
    ensures o.FactAmount? <==> Truthy(AmountField(factData)) && !Unprintable(AmountField(factData).value)
    ensures o.FactAmount? ==> o.amount == ParseInt(ToJsString(AmountField(factData).value).value)
    ensures o.MissingAmount? || o.FactAmount? || o.ConversionFailed?
  {
    var amount := AmountField(factData);
    if !Truthy(amount) then MissingAmount
    else
      match ToJsString(amount.value)
      case None => ConversionFailed
      case Some(text) => FactAmount(ParseInt(text))
  }

  /** An element [3] that selects neither the reward nor the fact branch. */
  predicate IsOtherType(eventType: Option<JsonValue>) {
    eventType != Some(JStr("reward")) && eventType != Some(JStr("fact"))
  }

  /** parseMessage on the result of JSON.parse. Every exception inside it is caught, so it
      always yields an outcome. */
  function ParseMessage(d: Decoded): (o: Outcome)
    ensures o.ParseFailed? <==> d.Malformed?
    ensures o.Unexpected? <==> d.Parsed? && !IsFrame(d.value)
    ensures o.Reward? <==> d.Parsed? && IsFrame(d.value) && Element(d.value.elems, 3) == Some(JStr("reward"))
    ensures d.Parsed? && IsFrame(d.value) && Element(d.value.elems, 3) == Some(JStr("fact")) ==>
      o == FactOutcome(Element(d.value.elems, 4))
    ensures d.Parsed? && IsFrame(d.value) && IsOtherType(Element(d.value.elems, 3)) ==>
      && (o.Other? || o.ConversionFailed?)
      && (o.Other? <==> TemplateText(Element(d.value.elems, 3)).Some?)
    ensures o.Other? ==>
      && d.Parsed? && IsFrame(d.value) && IsOtherType(Element(d.value.elems, 3))
      && TemplateText(Element(d.value.elems, 3)) == Some(o.eventType)
    ensures AmountWrites(o) != [] ==>
      d.Parsed? && IsFrame(d.value) && Element(d.value.elems, 3) == Some(JStr("fact"))
  {
    match d
    case Malformed => ParseFailed
    case Parsed(v) =>
      if !IsFrame(v) then Unexpected
      else
        var eventType := Element(v.elems, 3);
        if eventType == Some(JStr("reward")) then Reward
        else if eventType == Some(JStr("fact")) then FactOutcome(Element(v.elems, 4))
        else
          match TemplateText(eventType)
          case None => ConversionFailed
          case Some(name) => Other(name)
  }

  /** A message that does not decode, or decodes to anything but a non-empty array, writes
      nothing to the amount log and is reported, not thrown. */
  lemma NotAFrameWritesNothing(d: Decoded)
    requires d.Malformed? || !IsFrame(d.value)
    ensures ParseMessage(d) == ParseFailed || ParseMessage(d) == Unexpected
    ensures AmountWrites(ParseMessage(d)) == []
  {
  }

  /** Element [3] decides the branch: "fact" is the only one that can log an amount, any
      other value takes the "other" branch with its text (or the caught TypeError when it
      cannot be printed), and a frame too short to have element [3] prints "undefined". */
  lemma EventTypeDecides(elems: seq<JsonValue>)
    requires |elems| > 0
    ensures |elems| <= 3 ==> ParseMessage(Parsed(JArr(elems))) == Other("undefined")
    ensures |elems| > 3 && elems[3] == JStr("fact") ==>
      ParseMessage(Parsed(JArr(elems))) == FactOutcome(Element(elems, 4))
    ensures |elems| > 3 && elems[3] != JStr("fact") ==> AmountWrites(ParseMessage(Parsed(JArr(elems)))) == []
    ensures |elems| > 3 && elems[3] != JStr("fact") && elems[3] != JStr("reward") ==>
      ParseMessage(Parsed(JArr(elems))) ==
        if Unprintable(elems[3]) then ConversionFailed else Other(ToJsString(elems[3]).value)
  {
  }

  /** A fact frame whose amount is a non-zero number logs exactly that number. */
  lemma NumericAmountLogged(elems: seq<JsonValue>, m: map<string, JsonValue>, n: int)
    requires |elems| > 4 && elems[3] == JStr("fact") && elems[4] == JObj(m)
    requires AmountKey in m && m[AmountKey] == JNum(n) && n != 0
    ensures ParseMessage(Parsed(JArr(elems))) == FactAmount(Some(n))
    ensures AmountWrites(ParseMessage(Parsed(JArr(elems)))) == [Some(n)]
  {
    ParseIntOfIntString(n);
  }

  /** A fact frame whose amount is text starting with decimal digits logs the value of the
      digits: "1234.56" logs 1234. */
  lemma DecimalTextAmountLogged(elems: seq<JsonValue>, m: map<string, JsonValue>, digits: string, rest: string)
    requires |elems| > 4 && elems[3] == JStr("fact") && elems[4] == JObj(m)
    requires |digits| > 0 && AllRadixDigits(digits, 10)
    requires rest == [] || !IsDecimalDigit(rest[0])
    requires !HasHexPrefix(digits + rest)
    requires AmountKey in m && m[AmountKey] == JStr(digits + rest)
    ensures ParseMessage(Parsed(JArr(elems))) == FactAmount(Some(DigitsValue(digits, 10)))
  {
    ParseIntDecimalPrefix(digits, rest);
  }

  /** A fact frame whose amount is non-empty text without a leading number ("$100.00",
      "$1,234") still logs exactly one entry, and that entry is NaN. */
  lemma NonNumericAmountLogsNaN(elems: seq<JsonValue>, m: map<string, JsonValue>, s: string)
    requires |elems| > 4 && elems[3] == JStr("fact") && elems[4] == JObj(m)
    requires s != [] && !(IsStrWhiteSpace(s[0]) || IsSign(s[0]) || IsDecimalDigit(s[0]))
    requires AmountKey in m && m[AmountKey] == JStr(s)
    ensures ParseMessage(Parsed(JArr(elems))) == FactAmount(None)
    ensures AmountWrites(ParseMessage(Parsed(JArr(elems)))) == [None]
  {
    ParseIntNoDigits(s);
  }

  /** A fact frame whose element [4] is missing, not an object, or lacks a truthy amount
      writes nothing to the amount log. */
  lemma FalsyAmountWritesNothing(elems: seq<JsonValue>)
    requires |elems| > 3 && elems[3] == JStr("fact")
    requires !Truthy(AmountField(Element(elems, 4)))
    ensures ParseMessage(Parsed(JArr(elems))) == MissingAmount
    ensures AmountWrites(ParseMessage(Parsed(JArr(elems)))) == []
  {
  }

  /** A concrete fact frame whose amount carries a dollar sign logs NaN once. */
  lemma DollarAmountExample()
    ensures var frame := [JStr("3"), JStr("3"), JStr("fact.0478358a-c4ff-4ab0-9cc7-5f0b328df9dc.fact"),
                          JStr("fact"), JObj(map[AmountKey := JStr("$1,234")])];
      AmountWrites(ParseMessage(Parsed(JArr(frame)))) == [None]
  {
    var m := map[AmountKey := JStr("$1,234")];
    var frame := [JStr("3"), JStr("3"), JStr("fact.0478358a-c4ff-4ab0-9cc7-5f0b328df9dc.fact"), JStr("fact"), JObj(m)];
    NonNumericAmountLogsNaN(frame, m, "$1,234");
  }

  /** A concrete fact frame with an empty payload logs nothing. */
  lemma EmptyPayloadExample()
    ensures var frame := [JStr("3"), JStr("3"), JStr("fact.0478358a-c4ff-4ab0-9cc7-5f0b328df9dc.fact"),
                          JStr("fact"), JObj(map[])];
      ParseMessage(Parsed(JArr(frame))) == MissingAmount
  {
    var frame := [JStr("3"), JStr("3"), JStr("fact.0478358a-c4ff-4ab0-9cc7-5f0b328df9dc.fact"), JStr("fact"), JObj(map[])];
    FalsyAmountWritesNothing(frame);
  }
}

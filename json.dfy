/** A decoded JSON value, as JSON.parse hands it to the message handler, with the
    JavaScript conversions the handler applies to it: ToBoolean (truthiness) and ToString
    (template literals and parseInt's argument). Numbers are integers here. */
module Json {
  import opened Wrappers
  import opened Numerals

  datatype JsonValue =
    | JNull
    | JBool(b: bool)
    | JNum(n: int)
    | JStr(s: string)
    | JArr(elems: seq<JsonValue>)
    | JObj(fields: map<string, JsonValue>)

  /** What JSON.parse does with a raw message: a value, or the SyntaxError it throws. */
  datatype Decoded = Malformed | Parsed(value: JsonValue)

  /** `a[i]` on an array: the element, or undefined (None) past the end. */
  function Element(a: seq<JsonValue>, i: nat): (r: Option<JsonValue>)
    ensures r.Some? <==> i < |a|
    ensures r.Some? ==> r.value == a[i]
  {
    if i < |a| then Some(a[i]) else None
  }

  /** ToBoolean of a decoded value; None is undefined. */
  predicate Truthy(v: Option<JsonValue>) {
    match v
    case None => false
    case Some(JNull) => false
    case Some(JBool(b)) => b
    case Some(JNum(n)) => n != 0
    case Some(JStr(s)) => s != ""
    case Some(JArr(_)) => true
    case Some(JObj(_)) => true
  }

  /** The falsy values are exactly undefined, null, false, 0 and "". */
  lemma FalsyValues(v: Option<JsonValue>)
    ensures !Truthy(v) <==>
      v == None || v == Some(JNull) || v == Some(JBool(false)) || v == Some(JNum(0)) || v == Some(JStr(""))
  {
  }

  /** An object decoded from JSON whose own "toString" member exists cannot be converted to
      a string: that member is never callable, neither is a "valueOf" member, and the
      inherited valueOf returns the object itself, so ToPrimitive throws a TypeError. An
      array converts through join, so it fails when one of its elements does. */
  predicate Unprintable(v: JsonValue) {
    match v
    case JObj(m) => "toString" in m
    case JArr(es) => exists i :: 0 <= i < |es| && Unprintable(es[i])
    case _ => false
  }

  /** Array.prototype.join with ",": fails as soon as one part fails. */
  function JoinParts(parts: seq<Option<string>>): (r: Option<string>)
    ensures r.None? <==> exists i :: 0 <= i < |parts| && parts[i].None?
  {
    if parts == [] then Some("")
    else if |parts| == 1 then parts[0]
    else
      match (JoinParts(parts[..|parts| - 1]), parts[|parts| - 1])
      case (Some(init), Some(last)) => Some(init + "," + last)
      case _ => None
  }

  /** ToString of a decoded value, None when it throws. Inside an array, null turns into
      the empty string. */
  function ToJsString(v: JsonValue): (r: Option<string>)
    ensures r.None? <==> Unprintable(v)
    ensures v.JStr? ==> r == Some(v.s)
  {
    match v
    case JNull => Some("null")
    case JBool(b) => Some(if b then "true" else "false")
    case JNum(n) => Some(IntToString(n))
    case JStr(s) => Some(s)
    case JArr(es) =>
      var parts := seq(|es|, i requires 0 <= i < |es| => if es[i].JNull? then Some("") else ToJsString(es[i]));
      assert forall i :: 0 <= i < |es| ==> (parts[i].None? <==> Unprintable(es[i]));
      JoinParts(parts)
    case JObj(m) => if "toString" in m then None else Some("[object Object]")
  }

  /** What a template literal `${x}` makes of a possibly undefined value. */
  function TemplateText(v: Option<JsonValue>): (r: Option<string>)
    ensures v == None ==> r == Some("undefined")
    ensures r.None? <==> v.Some? && Unprintable(v.value)
  {
    match v
    case None => Some("undefined")
    case Some(x) => ToJsString(x)
  }
}

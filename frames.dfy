/** The frames the client sends: Phoenix channel messages [joinRef, ref, topic, event,
    payload] written as JSON.stringify writes a five-element array, with the empty object as
    payload. A reader for exactly that shape is the serialiser's inverse. */
module Frames {
  import opened Wrappers

  /** An outbound frame; its payload is always {}. A missing joinRef is written as null. */
  datatype Frame = Frame(joinRef: Option<string>, ref: string, topic: string, event: string)

  /** The two channels of the followed event: its facts and its rewards. */
  const FactTopic := "fact.0478358a-c4ff-4ab0-9cc7-5f0b328df9dc.fact"
  const RewardTopic := "fact.0478358a-c4ff-4ab0-9cc7-5f0b328df9dc.reward"

  const JoinFact := Frame(Some("3"), "3", FactTopic, "phx_join")
  const JoinReward := Frame(Some("6"), "6", RewardTopic, "phx_join")
  const Heartbeat := Frame(None, "7", "phoenix", "heartbeat")

  function HexDigit(d: nat): (c: char)
    requires d < 16
  {
    if d < 10 then ('0' as int + d) as char else ('a' as int + d - 10) as char
  }

  function HexValue(c: char): (v: Option<nat>)
    ensures v.Some? ==> v.value < 16
  {
    if '0' <= c <= '9' then Some(c as int - '0' as int)
    else if 'a' <= c <= 'f' then Some(c as int - 'a' as int + 10)
    else if 'A' <= c <= 'F' then Some(c as int - 'A' as int + 10)
    else None
  }

  /** How JSON.stringify writes one character inside a string literal (QuoteJSONString,
      ECMA-262 section 25.5.2.3). */
  function EscapeChar(c: char): (e: string)
    ensures |e| >= 1
  {
    if c == '"' then "\\\""
    else if c == '\\' then "\\\\"
    else if c == '\U{8}' then "\\b"
    else if c == '\t' then "\\t"
    else if c == '\n' then "\\n"
    else if c == '\U{C}' then "\\f"
    else if c == '\r' then "\\r"
    else if c < ' ' then "\\u00" + [HexDigit(c as int / 16), HexDigit(c as int % 16)]
    else [c]
  }

  function Escape(s: string): string {
    if s == [] then [] else EscapeChar(s[0]) + Escape(s[1..])
  }

  function Quote(s: string): string {
    "\"" + Escape(s) + "\""
  }

  function JoinRefText(joinRef: Option<string>): string {
    match joinRef
    case None => "null"
    case Some(j) => Quote(j)
  }

  /** JSON.stringify([joinRef, ref, topic, event, {}]). */
  function Serialize(f: Frame): string {
    "[" + JoinRefText(f.joinRef) + ("," + Quote(f.ref) + ("," + Quote(f.topic) + ("," + Quote(f.event) + ",{}]")))
  }

  /** The character an escape sequence stands for, read just after its backslash, and the
      number of characters the sequence takes there. */
  function ReadEscape(t: string): (r: Option<(char, nat)>)
    ensures r.Some? ==> 1 <= r.value.1 <= |t|
  {
    if t == [] then None
    else if t[0] == '"' || t[0] == '\\' || t[0] == '/' then Some((t[0], 1))
    else if t[0] == 'b' then Some(('\U{8}', 1))
    else if t[0] == 't' then Some(('\t', 1))
    else if t[0] == 'n' then Some(('\n', 1))
    else if t[0] == 'f' then Some(('\U{C}', 1))
    else if t[0] == 'r' then Some(('\r', 1))
    else if t[0] == 'u' && |t| >= 5 then
      match (HexValue(t[1]), HexValue(t[2]), HexValue(t[3]), HexValue(t[4]))
      case (Some(a), Some(b), Some(c), Some(d)) =>
        var code := ((a * 16 + b) * 16 + c) * 16 + d;
        if code < 0xD800 || 0xE000 <= code then Some((code as char, 5)) else None
      case _ => None
    else None
  }

  /** Reads the body of a string literal up to its closing quote; returns the characters it
      stands for and the text after the quote. */
  function ReadStringBody(s: string): (r: Option<(string, string)>)
    decreases |s|
  {
    if s == [] then None
    else if s[0] == '"' then Some(([], s[1..]))
    else if s[0] == '\\' then
      match ReadEscape(s[1..])
      case None => None
      case Some((c, n)) =>
        match ReadStringBody(s[1 + n..])
        case None => None
        case Some((body, rest)) => Some(([c] + body, rest))
    else if s[0] < ' ' then None
    else
      match ReadStringBody(s[1..])
      case None => None
      case Some((body, rest)) => Some(([s[0]] + body, rest))
  }

  function ReadString(s: string): Option<(string, string)> {
    if s != [] && s[0] == '"' then ReadStringBody(s[1..]) else None
  }

  function ReadJoinRef(s: string): Option<(Option<string>, string)> {
    if |s| >= 4 && s[..4] == "null" then Some((None, s[4..]))
    else
      match ReadString(s)
      case None => None
      case Some((j, rest)) => Some((Some(j), rest))
  }

  /** A comma followed by a string literal. */
  function ReadField(s: string): Option<(string, string)> {
    if s != [] && s[0] == ',' then ReadString(s[1..]) else None
  }

  /** Reads back a frame of the shape Serialize writes. */
  function Deserialize(text: string): Option<Frame> {
    if text == [] || text[0] != '[' then None
    else
      var j :- ReadJoinRef(text[1..]);
      var r :- ReadField(j.1);
      var t :- ReadField(r.1);
      var e :- ReadField(t.1);
      if e.1 == ",{}]" then Some(Frame(j.0, r.0, t.0, e.0)) else None
  }

  lemma EscapeCharRead(c: char, rest: string)
    ensures var e := EscapeChar(c);
      || (e == [c] && c != '"' && c != '\\' && c >= ' ')
      || (|e| >= 2 && e[0] == '\\' && ReadEscape(e[1..] + rest) == Some((c, |e| - 1)))
  {
    var e := EscapeChar(c);
    if c < ' ' && c != '\U{8}' && c != '\t' && c != '\n' && c != '\U{C}' && c != '\r' {
      var hi, lo := c as int / 16, c as int % 16;
      var t := e[1..] + rest;
      assert t[..5] == ['u', '0', '0', HexDigit(hi), HexDigit(lo)];
      assert HexValue(HexDigit(hi)) == Some(hi) && HexValue(HexDigit(lo)) == Some(lo);
    }
  }

  /** A character that needs no escape is read as itself. */
  lemma ReadPlainChar(c: char, tail: string, body: string, rest: string)
    requires c != '"' && c != '\\' && c >= ' '
    requires ReadStringBody(tail) == Some((body, rest))
    ensures ReadStringBody([c] + tail) == Some(([c] + body, rest))
  {
    assert ([c] + tail)[1..] == tail;
  }

  /** An escape sequence is read as the character it stands for. */
  lemma ReadEscapeSequence(c: char, e: string, tail: string, body: string, rest: string)
    requires |e| >= 2 && e[0] == '\\' && ReadEscape(e[1..] + tail) == Some((c, |e| - 1))
    requires ReadStringBody(tail) == Some((body, rest))
    ensures ReadStringBody(e + tail) == Some(([c] + body, rest))
  {
    var s := e + tail;
    assert s[1..] == e[1..] + tail;
    assert s[1 + (|e| - 1)..] == tail;
  }

  /** Reading an escaped string body up to its closing quote gives the original string and
      leaves the rest untouched. */
  lemma {:induction false} ReadEscaped(s: string, rest: string)
    ensures ReadStringBody(Escape(s) + "\"" + rest) == Some((s, rest))
  {
    if s == [] {
      assert Escape(s) + "\"" + rest == "\"" + rest;
    } else {
      var e := EscapeChar(s[0]);
      var tail := Escape(s[1..]) + "\"" + rest;
      assert Escape(s) + "\"" + rest == e + tail;
      ReadEscaped(s[1..], rest);
      EscapeCharRead(s[0], tail);
      assert [s[0]] + s[1..] == s;
      if e == [s[0]] && s[0] != '"' && s[0] != '\\' && s[0] >= ' ' {
        ReadPlainChar(s[0], tail, s[1..], rest);
      } else {
        ReadEscapeSequence(s[0], e, tail, s[1..], rest);
      }
    }
  }

  lemma ReadFieldQuoted(x: string, rest: string)
    ensures ReadField("," + Quote(x) + rest) == Some((x, rest))
  {
    var s := "," + Quote(x) + rest;
    assert s[1..] == "\"" + (Escape(x) + "\"" + rest);
    assert s[1..][1..] == Escape(x) + "\"" + rest;
    ReadEscaped(x, rest);
  }

  lemma ReadJoinRefText(joinRef: Option<string>, rest: string)
    ensures ReadJoinRef(JoinRefText(joinRef) + rest) == Some((joinRef, rest))
  {
    match joinRef
    case None => ReadNull(rest);
    case Some(j) => ReadQuotedJoinRef(j, rest);
  }

  lemma ReadNull(rest: string)
    ensures ReadJoinRef("null" + rest) == Some((None, rest))
  {
    var s := "null" + rest;
    assert s[..4] == "null" && s[4..] == rest;
  }

  lemma ReadQuotedJoinRef(j: string, rest: string)
    ensures ReadJoinRef(Quote(j) + rest) == Some((Some(j), rest))
  {
    var s := Quote(j) + rest;
    assert s[0] == '"';
    assert s[1..] == Escape(j) + "\"" + rest;
    ReadEscaped(j, rest);
  }

  /** Reading a serialised frame gives the frame back. */
  lemma DeserializeSerialize(f: Frame)
    ensures Deserialize(Serialize(f)) == Some(f)
  {
    var tail3 := "," + Quote(f.event) + ",{}]";
    var tail2 := "," + Quote(f.topic) + tail3;
    var tail1 := "," + Quote(f.ref) + tail2;
    var text := Serialize(f);
    assert text == "[" + (JoinRefText(f.joinRef) + tail1);
    ReadJoinRefText(f.joinRef, tail1);
    ReadFieldQuoted(f.ref, tail2);
    ReadFieldQuoted(f.topic, tail3);
    ReadFieldQuoted(f.event, ",{}]");
    DeserializeSteps(text, f, tail1, tail2, tail3);
  }

  /** Deserialize, given what each of its reads returns. */
  lemma DeserializeSteps(text: string, f: Frame, tail1: string, tail2: string, tail3: string)
    requires text != [] && text[0] == '['
    requires ReadJoinRef(text[1..]) == Some((f.joinRef, tail1))
    requires ReadField(tail1) == Some((f.ref, tail2))
    requires ReadField(tail2) == Some((f.topic, tail3))
    requires ReadField(tail3) == Some((f.event, ",{}]"))
    ensures Deserialize(text) == Some(f)
  {
  }

  /** Different frames are sent as different texts. */
  lemma SerializeInjective(f: Frame, g: Frame)
    requires Serialize(f) == Serialize(g)
    ensures f == g
  {
    DeserializeSerialize(f);
    DeserializeSerialize(g);
  }

  /** No character of the string needs an escape. */
  predicate IsPlain(s: string) {
    forall i :: 0 <= i < |s| ==> s[i] >= ' ' && s[i] != '"' && s[i] != '\\'
  }

  lemma {:induction false} EscapePlain(s: string)
    requires IsPlain(s)
    ensures Escape(s) == s
  {
    if s != [] {
      EscapePlain(s[1..]);
      assert [s[0]] + s[1..] == s;
    }
  }

  lemma QuotePlain(s: string)
    requires IsPlain(s)
    ensures Quote(s) == "\"" + s + "\""
  {
    EscapePlain(s);
  }

  /** The text of a frame whose strings need no escapes: each string verbatim, in quotes. */
  function PlainText(f: Frame): string {
    "[" + (if f.joinRef.Some? then "\"" + f.joinRef.value + "\"" else "null")
    + ("," + ("\"" + f.ref + "\"") + ("," + ("\"" + f.topic + "\"") + ("," + ("\"" + f.event + "\"") + ",{}]")))
  }

  lemma SerializePlain(f: Frame)
    requires IsPlain(f.ref) && IsPlain(f.topic) && IsPlain(f.event)
    requires f.joinRef.Some? ==> IsPlain(f.joinRef.value)
    ensures Serialize(f) == PlainText(f)
  {
    QuotePlain(f.ref);
    QuotePlain(f.topic);
    QuotePlain(f.event);
    if f.joinRef.Some? {
      QuotePlain(f.joinRef.value);
    }
  }

  /** The heartbeat's exact text on the wire. */
  lemma HeartbeatText()
    ensures Serialize(Heartbeat) == "[null,\"7\",\"phoenix\",\"heartbeat\",{}]"
  {
    SerializePlain(Heartbeat);
    HeartbeatSpelled();
  }

  lemma HeartbeatSpelled()
    ensures PlainText(Heartbeat) == "[null,\"7\",\"phoenix\",\"heartbeat\",{}]"
  {
  }
}

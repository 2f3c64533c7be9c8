# Tiltify websocket logger: a verified model

`main.ts` is a small Deno client for Tiltify's Phoenix-channels websocket feed. It
connects, joins the fact channel and then the reward channel of one event, and keeps the
connection alive with a heartbeat every 30 seconds. After a close it reconnects. Every
inbound message goes through the same steps:

- it is counted and kept in an in-memory buffer;
- the terminal is redrawn with the count and the last five messages;
- it is appended to `messages.log`;
- it is classified by `parseMessage`.

A `fact` frame that carries a truthy `totalAmountRaised` is run through ECMAScript's
`parseInt`, and the result is appended to `graph.log`, even when it is NaN. The exception
is an amount whose conversion to text throws: the catch at main.ts:60-62 reports it, and
nothing is logged.

The model has these modules:

- `Wrappers` (wrappers.dfy): the `Option` type.
- `Numerals` (numerals.dfy): decimal digits and the decimal rendering of integers.
- `Json` (json.dfy): a decoded JSON value, with JavaScript's ToBoolean and ToString of
  such a value. ToString covers template literals and `parseInt`'s argument.
- `EcmaParseInt` (parse_int.dfy): `parseInt(string)` with the radix undefined, as in
  ECMA-262 section 19.2.5. NaN is `None`.
- `Classify` (classify.dfy): `parseMessage`.
  - It returns the branch taken, as an `Outcome`.
  - `AmountWrites` gives what that branch appends to `graph.log`.
- `Display` (display.dfy): `updateDisplay`.
  - The window of the last five messages.
  - The screen as a list of lines.
  - `Render`, the loop that draws them.
- `Frames` (frames.dfy): the frames the client sends.
  - A serialiser for the five-element arrays `JSON.stringify` produces.
  - A reader that is its inverse.
- `Client` (client.dfy): the running client, as the class `WsClient`.
  - Its fields are the module globals and the state of the current connection.
  - It has one method per WebSocket handler or timer callback, and `Handle` dispatches an
    event to them.
  - `sent` records every frame handed to `ws.send`, tagged with its connection.
  - `rawLog` and `amountLog` stand for the two log files.

The comment at main.ts:51 suggests that dollar strings such as `"$100.00"` were meant to
be parsed. `parseInt` at main.ts:52 reads no digits after a leading `$`, however, so
`"$100.00"` and `"$1,234"` are logged as NaN (`Classify.DollarAmountExample`,
`EcmaParseInt.ParseIntExamples`).

## Model

| member | source | states |
|---|---|---|
| Classify.ParseMessage | main.ts:35-63 | A failed JSON.parse, and only that, gives ParseFailed. A value that is not a non-empty array, and only that, gives Unexpected. Element [3] equal to "reward", and only that, gives Reward. [3] equal to "fact" gives the fact branch's outcome for element [4]. Any other [3] gives Other with that value's text, or the caught TypeError when the value cannot be printed; Other arises only there. The amount log is written only for a non-empty array whose element [3] is "fact". |
| Classify.FactOutcome | main.ts:44-53 | In the fact branch, a falsy `totalAmountRaised` (by ToBoolean) means the handler returns early, and only then. A truthy amount that converts to text logs exactly `parseInt` of that text, NaN included. A truthy amount whose conversion throws is caught, and nothing is logged. |
| Classify.AmountField | main.ts:44-45 | `factData?.totalAmountRaised` gives a value exactly when element [4] is an object that has the member, and that value is the member's. |
| Classify.AmountWrites | main.ts:53 | An outcome appends at most one entry to the amount log. It appends one exactly when the fact branch reached `logRaisedAmount`, and that entry is the parsed amount. |
| Classify.NotAFrameWritesNothing | main.ts:36-38 | Malformed JSON, a non-array and an empty array are reported without throwing and write nothing to the amount log. |
| Classify.EventTypeDecides | main.ts:39-56 | A frame too short to have element [3] takes the other branch and prints "undefined". [3] equal to "fact" takes the fact branch. Any other present [3] writes nothing to the amount log, and one other than "reward" gives Other with its text, or the caught TypeError when it cannot be printed. |
| Classify.NumericAmountLogged | main.ts:44-53 | A fact frame whose amount is a non-zero integer logs exactly that integer. |
| Classify.DecimalTextAmountLogged | main.ts:50-53 | A fact frame whose amount is text starting with decimal digits logs the value of those digits, for example 1234 for "1234.56". |
| Classify.NonNumericAmountLogsNaN | main.ts:50-53 | A fact frame whose amount is non-empty text starting with neither blank, sign nor digit logs exactly one NaN. |
| Classify.FalsyAmountWritesNothing | main.ts:44-49 | A fact frame whose element [4] is missing or not an object, or whose amount is absent or falsy, returns early and writes nothing to the amount log. |
| Classify.DollarAmountExample | main.ts:50-53 | The fact frame with amount "$1,234" logs one NaN. |
| Classify.EmptyPayloadExample | main.ts:44-49 | The fact frame with an empty payload object takes the missing-amount exit. |
| Json.Element | main.ts:39 | Indexing an array gives its element inside the bounds and undefined past the end. |
| Json.FalsyValues | main.ts:46 | The falsy values are exactly undefined, null, false, 0 and "". |
| Json.ToJsString | main.ts:50-52 | Converting a decoded value to text fails exactly for the values that cannot be printed: an object with an own "toString" member, or an array holding one. A string converts to itself. |
| Json.TemplateText | main.ts:55 | An undefined element [3] prints as "undefined". Printing fails exactly for the values that cannot be printed. |
| Numerals.NatToStringValue | main.ts:17-21 | The decimal rendering of n consists of digits only and reads back as n. |
| EcmaParseInt.DigitPrefix | main.ts:52 | The digit run `parseInt` reads is a prefix of its input, holds only digits of the radix, and is longest: the next character, if any, is not such a digit. |
| EcmaParseInt.TrimStartRemovesWhiteSpace | main.ts:52 | Trimming removes a prefix made only of white space and line terminators, and what remains does not start with one. |
| EcmaParseInt.ParseIntSkipsWhiteSpace | main.ts:52 | Leading white space does not change the result of `parseInt`. |
| EcmaParseInt.ParseIntUnsigned | main.ts:52 | Without leading blanks or a sign, `parseInt` reads the text as it is. |
| EcmaParseInt.ParseIntDecimalPrefix | main.ts:52 | A run of decimal digits followed by a non-digit, with no "0x" prefix, parses to the value of the run. |
| EcmaParseInt.ParseIntHex | main.ts:52 | "0x" or "0X" followed by hexadecimal digits parses in radix 16. |
| EcmaParseInt.ParseIntSign | main.ts:52 | A leading "-" negates the result, and a leading "+" does not change it. |
| EcmaParseInt.ParseIntNoDigits | main.ts:52 | Text whose first character is neither blank, sign nor digit parses to NaN. |
| EcmaParseInt.ParseIntOfIntString | main.ts:50-52 | `parseInt` of an integer's decimal rendering is that integer. |
| EcmaParseInt.ParseIntExamples | main.ts:51-52 | "1234.56" parses to 1234, while "$100.00" and "$1,234" parse to NaN. |
| Display.Window | main.ts:19 | `slice(-5)` keeps min(5, n) messages of an n-message buffer. |
| Display.WindowIsSuffix | main.ts:19 | The window is the tail of the buffer, so it holds the newest messages in arrival order. |
| Display.WindowAfterPush | main.ts:19 | After one more message the window is the old window plus the new message, with the oldest entry dropped once five were shown. |
| Display.EntryText | main.ts:21 | An entry line is its number, ". ", and then the message verbatim. |
| Display.ScreenHeader | main.ts:16-18 | A redraw starts with the message count, a blank line and the caption. |
| Display.ScreenLines | main.ts:19-22 | Below the header, line i is window entry i - 3, numbered from 1. |
| Display.Render | main.ts:15-23 | The drawing loop writes exactly the screen: the header, then one numbered line per window entry. |
| Display.LastLineIsNewest | main.ts:19-21 | After a message arrives, the last line drawn is that message, numbered with the window's size. |
| Frames.DeserializeSerialize | main.ts:73-90 | Reading the text of any outbound frame gives that frame back, whatever its strings contain. |
| Frames.SerializeInjective | main.ts:73-90 | Different frames go out as different texts. |
| Frames.SerializePlain | main.ts:73-90 | A frame whose strings need no escapes is written with each string verbatim in quotes. |
| Frames.HeartbeatText | main.ts:90 | The heartbeat goes out as exactly `[null,"7","phoenix","heartbeat",{}]`. |
| Client.WireTextsDistinct | main.ts:73-90 | The fact join, the reward join and the heartbeat are three different texts on the wire. |
| Client.SessionFramesOfNewSession | main.ts:65-68 | A connection that has not been opened yet has sent nothing. |
| Client.BeatAfterJoins | main.ts:70-92 | On any connection, a heartbeat comes after the fact join at position 0 and the reward join at position 1. |
| Client.HeartbeatWire | main.ts:90 | A frame whose text is the heartbeat text is the heartbeat. |
| Client.NoHeartbeatBeforeJoins | main.ts:70-92 | On the wire, a heartbeat text goes out on a connection only after both join texts, fact first. |
| Client.AmountLogAppend | main.ts:53 | Handling one more message extends the amount log by exactly that message's writes. |
| Client.AmountLogCountsFacts | main.ts:42-53 | The amount log has one entry per message whose fact branch reached `logRaisedAmount`. |
| Client.ClassifiedPush | main.ts:102 | Classifying one more message extends the classification of the buffer by parseMessage of that message. |
| Client.ClassifiedAt | main.ts:102 | Each message is classified on its own: entry i is parseMessage of message i. |
| Client.AmountLogOfBuffer | main.ts:96-102 | Over a whole buffer, `graph.log` has exactly as many entries as there are messages whose parseMessage reached the logging line. |
| Client.OpenKeepsAgreement | main.ts:70-92 | Opening a fresh connection sends exactly the fact join and then the reward join on it, touches no other connection, and leaves the heartbeat armed. |
| Client.TickKeepsAgreement | main.ts:89-92 | A heartbeat on a joined connection is appended after its joins and touches no other connection. |
| Client.ReconnectKeepsAgreement | main.ts:115-118 | The reconnect timer starts a new connection that has sent nothing, with no heartbeat armed. |
| Client.WsClient.constructor | main.ts:12-13 | The client starts with no messages, empty logs and no frames sent, on a first connection that is not yet open. |
| Client.WsClient.OnOpen | main.ts:70-94 | Open appends the fact join and then the reward join to the connection's sends, then arms the heartbeat. Messages and other connections are untouched. |
| Client.WsClient.OnHeartbeatTick | main.ts:89-92 | While the heartbeat is armed, each tick sends exactly one heartbeat on the current connection. Otherwise it sends nothing. |
| Client.WsClient.OnMessage | main.ts:96-103 | The count rises by exactly 1. The message is appended verbatim to the buffer and to the raw log, whether or not it decodes. The screen drawn is the window of the new buffer. The amount log grows by exactly what parseMessage writes. The connection state is untouched. |
| Client.WsClient.OnClose | main.ts:109-114 | Close disarms the heartbeat and marks the connection closed. Messages, counters and sends are untouched. |
| Client.WsClient.OnReconnectTimer | main.ts:115-118 | After a close, the timer opens the next connection, not yet joined and with nothing armed. Counters and buffer survive. |
| Client.WsClient.Handle | main.ts:65-120 | Each event has its handler's effect. Open on a connecting connection sends the fact join and then the reward join and arms the heartbeat. A tick sends one heartbeat exactly when armed. A message has `OnMessage`'s effect on the counter, buffer, screen and both logs. Close leaves the connection closed and disarmed. The reconnect timer after a close opens the next connection. onerror changes nothing. Only the current connection ever sends, and a closed connection sends nothing more. |
| Client.CloseStopsHeartbeat | main.ts:112-114 | After a close, a heartbeat tick that still arrives sends nothing, and the connection stays closed. |

## Left out

- Terminal output through terminal-kit: colours, the per-branch report lines, and the
  `JSON.stringify` of the parsed message and of the error. Only the lines `updateDisplay`
  draws are modelled, as the value `OnMessage` returns. The branch `parseMessage` takes is
  kept as an `Outcome`.
- `Deno.writeTextFile` and the ISO timestamps: each log is a ghost sequence of its
  payloads. The writes are not awaited in the source, and a failed write is not modelled.
- `JSON.parse` is the function `jsonParse` given to the constructor. The model does not
  parse JSON text itself.
- The WebSocket transport, `socketUrl`, and the `ws.close()` call inside `onclose`: the
  transport's callbacks are the events `Handle` receives.
- Timers: `setInterval(…, 30000)` is the `HeartbeatTick` event and `setTimeout(…, 10)` is
  the `ReconnectTimer` event. The delays, and interleavings that depend on them, are not
  modelled.
- Events the transport and the timers never deliver are no-ops: an open on a connection
  that is not connecting, a second close, a tick with no interval set, a reconnect before a
  close. `if (heartbeatInterval)` is modelled as the boolean `heartbeatArmed`, because
  `setInterval` returns a non-zero id.
- Numbers: JSON numbers are integers here. Fractions, exponents, and `Number::toString`'s
  exponent form for magnitudes of 10^21 and more are not modelled, and JavaScript's 64-bit
  floating point is not modelled either.
- Frames.JoinFact, Frames.JoinReward: their wire texts are `Serialize` of the constants.
  Those constants have exactly the fields the source writes. The text is proved letter by
  letter only for the heartbeat (`Frames.HeartbeatText`). For the joins, the model proves
  that reading the text back gives the frame (`Frames.DeserializeSerialize`) and that it
  differs from every other frame's text (`Client.WireTextsDistinct`).
- Client.WsClient.Valid does not carry "`outcomes` is parseMessage of every buffered
  message". Each `OnMessage` states its own step instead, and `Client.ClassifiedPush` shows
  that this step extends that relation. `Client.AmountLogOfBuffer` states what the relation
  implies for `graph.log`.

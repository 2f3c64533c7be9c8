/** The running client: the module globals totalMessages and messageBuffer, the heartbeat
    timer of the current connection, and what the handlers do to the world (frames sent,
    log lines). The lines updateDisplay draws are what onmessage returns. One method per
    WebSocket handler or timer callback; the transport and the timers themselves are the
    callers. */
module Client {
  import opened Wrappers
  import opened Json
  import opened Classify
  import opened Display
  import opened Frames

  /** Where the current connection stands. */
  datatype Phase =
    | Connecting   // the WebSocket exists; its open event has not fired
    | Joined       // open fired: both joins sent, heartbeat timer armed
    | Closed       // close fired: heartbeat timer cleared, reconnect timer pending

  /** The three frames the client ever sends. */
  datatype Outbound = FactJoin | RewardJoin | Beat

  function FrameOf(kind: Outbound): Frame {
    match kind
    case FactJoin => JoinFact
    case RewardJoin => JoinReward
    case Beat => Heartbeat
  }

  /** The texts of the three frames are pairwise different, so a reader of the wire can tell
      which was sent. */
  lemma WireTextsDistinct(k1: Outbound, k2: Outbound)
    requires Serialize(FrameOf(k1)) == Serialize(FrameOf(k2))
    ensures k1 == k2
  {
    var f1, f2 := FrameOf(k1), FrameOf(k2);
    SerializeInjective(f1, f2);
    FrameOfInjective(k1, k2);
  }

  lemma FrameOfInjective(k1: Outbound, k2: Outbound)
    requires FrameOf(k1) == FrameOf(k2)
    ensures k1 == k2
  {
  }

  /** A frame handed to ws.send, tagged with the connection (numbered from 0) it went out on;
      the text on the wire is Serialize(FrameOf(kind)). */
  datatype Sent = Sent(session: nat, kind: Outbound)

  /** What the transport and the timers deliver to the client. */
  datatype Event = Open | HeartbeatTick | Message(data: string) | Error | Close | ReconnectTimer

  /** The frames sent on connection k, in order. */
  function SessionFrames(sent: seq<Sent>, k: nat): (frames: seq<Outbound>)
    ensures |frames| <= |sent|
  {
    if sent == [] then []
    else
      var last := sent[|sent| - 1];
      SessionFrames(sent[..|sent| - 1], k) + (if last.session == k then [last.kind] else [])
  }

  lemma SessionFramesAppend(sent: seq<Sent>, x: Sent, k: nat)
    ensures SessionFrames(sent + [x], k) == SessionFrames(sent, k) + (if x.session == k then [x.kind] else [])
  {
    assert (sent + [x])[..|sent|] == sent;
  }

  /** A connection that has not sent anything yet has an empty history. */
  lemma {:induction false} SessionFramesOfNewSession(sent: seq<Sent>, k: nat)
    requires forall i :: 0 <= i < |sent| ==> sent[i].session < k
    ensures SessionFrames(sent, k) == []
  {
    if sent != [] {
      SessionFramesOfNewSession(sent[..|sent| - 1], k);
    }
  }

  /** What every connection sends: nothing yet, or the two joins, the fact channel first,
      followed by heartbeats only. */
  predicate JoinsFirst(frames: seq<Outbound>) {
    || frames == []
    || (&& |frames| >= 2
        && frames[0] == FactJoin
        && frames[1] == RewardJoin
        && forall i :: 2 <= i < |frames| ==> frames[i] == Beat)
  }

  /** On the wire: a heartbeat text goes out on a connection only after both join texts. */
  lemma NoHeartbeatBeforeJoins(frames: seq<Outbound>, i: nat)
    requires JoinsFirst(frames) && i < |frames| && Serialize(FrameOf(frames[i])) == Serialize(Heartbeat)
    ensures i >= 2 && frames[0] == FactJoin && frames[1] == RewardJoin
  {
    HeartbeatWire(frames[i]);
    BeatAfterJoins(frames, i);
  }

  lemma BeatAfterJoins(frames: seq<Outbound>, i: nat)
    requires JoinsFirst(frames) && i < |frames| && frames[i] == Beat
    ensures i >= 2 && frames[0] == FactJoin && frames[1] == RewardJoin
  {
  }

  lemma HeartbeatWire(k: Outbound)
    requires Serialize(FrameOf(k)) == Serialize(Heartbeat)
    ensures k == Beat
  {
    WireTextsDistinct(k, Beat);
  }

  /** The amount log produced by a sequence of handled messages. */
  function AmountLog(outcomes: seq<Outcome>): (log: seq<Option<int>>)
    ensures |log| <= |outcomes|
  {
    if outcomes == [] then []
    else AmountLog(outcomes[..|outcomes| - 1]) + AmountWrites(outcomes[|outcomes| - 1])
  }

  lemma AmountLogAppend(outcomes: seq<Outcome>, o: Outcome)
    ensures AmountLog(outcomes + [o]) == AmountLog(outcomes) + AmountWrites(o)
  {
    assert (outcomes + [o])[..|outcomes|] == outcomes;
  }

  /** The positions of the messages whose amount was logged. */
  function FactIndices(outcomes: seq<Outcome>): set<int> {
    set i | 0 <= i < |outcomes| && outcomes[i].FactAmount?
  }

  lemma FactIndicesPush(outcomes: seq<Outcome>, o: Outcome)
    ensures FactIndices(outcomes + [o]) == FactIndices(outcomes) + (if o.FactAmount? then {|outcomes|} else {})
  {
    var s := outcomes + [o];
    assert forall i :: 0 <= i < |outcomes| ==> s[i] == outcomes[i];
  }

  /** Only fact frames with a truthy amount add to the amount log: the log has one entry per
      such message. */
  lemma {:induction false} AmountLogCountsFacts(outcomes: seq<Outcome>)
    ensures |AmountLog(outcomes)| == |FactIndices(outcomes)|
  {
    if outcomes == [] {
      assert FactIndices(outcomes) == {};
    } else {
      var n := |outcomes| - 1;
      AmountLogCountsFacts(outcomes[..n]);
      FactIndicesPush(outcomes[..n], outcomes[n]);
      assert outcomes[..n] + [outcomes[n]] == outcomes;
      assert n !in FactIndices(outcomes[..n]);
    }
  }

  /** The branch parseMessage takes for each message of a buffer, in order of arrival. */
  function Classified(parse: string -> Decoded, buffer: seq<string>): (outcomes: seq<Outcome>)
    ensures |outcomes| == |buffer|
  {
    if buffer == [] then []
    else Classified(parse, buffer[..|buffer| - 1]) + [ParseMessage(parse(buffer[|buffer| - 1]))]
  }

  lemma ClassifiedPush(parse: string -> Decoded, buffer: seq<string>, data: string)
    ensures Classified(parse, buffer + [data]) == Classified(parse, buffer) + [ParseMessage(parse(data))]
  {
    assert (buffer + [data])[..|buffer|] == buffer;
  }

  /** Each message is classified on its own: entry i is parseMessage of message i. */
  lemma {:induction false} ClassifiedAt(parse: string -> Decoded, buffer: seq<string>)
    ensures forall i :: 0 <= i < |buffer| ==> Classified(parse, buffer)[i] == ParseMessage(parse(buffer[i]))
  {
    if buffer != [] {
      var init := buffer[..|buffer| - 1];
      ClassifiedAt(parse, init);
      assert forall i :: 0 <= i < |init| ==> buffer[i] == init[i];
    }
  }

  /** graph.log over a whole buffer: one entry for each message whose parseMessage reached
      the logging line of the fact branch, and no other. */
  lemma AmountLogOfBuffer(parse: string -> Decoded, buffer: seq<string>)
    ensures |AmountLog(Classified(parse, buffer))| ==
      |set i | 0 <= i < |buffer| && ParseMessage(parse(buffer[i])).FactAmount?|
  {
    var outcomes := Classified(parse, buffer);
    AmountLogCountsFacts(outcomes);
    ClassifiedAt(parse, buffer);
    assert FactIndices(outcomes) == set i | 0 <= i < |buffer| && ParseMessage(parse(buffer[i])).FactAmount?;
  }

  /** The session side of the client's state: the heartbeat is armed exactly while joined,
      nothing has been sent on a connection that is not yet open, both joins have gone out on
      a joined one, and every connection's frames follow JoinsFirst. */
  ghost predicate SessionsAgree(session: nat, phase: Phase, armed: bool, sent: seq<Sent>) {
    && (armed <==> phase == Joined)
    && (forall i :: 0 <= i < |sent| ==> sent[i].session <= session)
    && (phase == Connecting ==> SessionFrames(sent, session) == [])
    && (phase == Joined ==> |SessionFrames(sent, session)| >= 2)
    && (forall k :: JoinsFirst(SessionFrames(sent, k)))
  }

  /** onopen on a fresh connection: the two joins go out on it and on no other. */
  lemma OpenKeepsAgreement(session: nat, sent: seq<Sent>)
    requires SessionsAgree(session, Connecting, false, sent)
    ensures var after := sent + [Sent(session, FactJoin), Sent(session, RewardJoin)];
      && SessionsAgree(session, Joined, true, after)
      && SessionFrames(after, session) == [FactJoin, RewardJoin]
      && forall k :: k != session ==> SessionFrames(after, k) == SessionFrames(sent, k)
  {
    var mid := sent + [Sent(session, FactJoin)];
    var after := mid + [Sent(session, RewardJoin)];
    assert after == sent + [Sent(session, FactJoin), Sent(session, RewardJoin)];
    forall k: nat
      ensures SessionFrames(after, k) ==
        SessionFrames(sent, k) + (if k == session then [FactJoin, RewardJoin] else [])
    {
      SessionFramesAppend(sent, Sent(session, FactJoin), k);
      SessionFramesAppend(mid, Sent(session, RewardJoin), k);
    }
    forall k: nat
      ensures JoinsFirst(SessionFrames(after, k))
    {
      assert JoinsFirst(SessionFrames(sent, k));
    }
  }

  /** A heartbeat on a joined connection goes out after its joins and on no other. */
  lemma TickKeepsAgreement(session: nat, sent: seq<Sent>)
    requires SessionsAgree(session, Joined, true, sent)
    ensures var after := sent + [Sent(session, Beat)];
      && SessionsAgree(session, Joined, true, after)
      && SessionFrames(after, session) == SessionFrames(sent, session) + [Beat]
      && forall k :: k != session ==> SessionFrames(after, k) == SessionFrames(sent, k)
  {
    var after := sent + [Sent(session, Beat)];
    forall k: nat
      ensures SessionFrames(after, k) == SessionFrames(sent, k) + (if k == session then [Beat] else [])
    {
      SessionFramesAppend(sent, Sent(session, Beat), k);
    }
    forall k: nat
      ensures JoinsFirst(SessionFrames(after, k))
    {
      assert JoinsFirst(SessionFrames(sent, k));
    }
  }

  /** The reconnect timer opens a connection that has sent nothing yet. */
  lemma ReconnectKeepsAgreement(session: nat, sent: seq<Sent>)
    requires SessionsAgree(session, Closed, false, sent)
    ensures SessionsAgree(session + 1, Connecting, false, sent)
  {
    SessionFramesOfNewSession(sent, session + 1);
  }

  class WsClient {
    /** JSON.parse, which the model takes as given. */
    const jsonParse: string -> Decoded

    var totalMessages: nat
    var messageBuffer: seq<string>
    /** Payloads appended to messages.log, without their timestamps. */
    ghost var rawLog: seq<string>
    /** Values appended to graph.log, without their timestamps; None is NaN. */
    ghost var amountLog: seq<Option<int>>
    /** The branch parseMessage took for each message. */
    ghost var outcomes: seq<Outcome>

    /** How many connections were opened before the current one. */
    var session: nat
    var phase: Phase
    /** Whether the current connection's heartbeat interval is set. */
    var heartbeatArmed: bool
    /** Every ws.send so far. */
    var sent: seq<Sent>

    ghost predicate Valid()
      reads this
    {
      && totalMessages == |messageBuffer|
      && rawLog == messageBuffer
      && |outcomes| == |messageBuffer|
      && amountLog == AmountLog(outcomes)
      && SessionsAgree(session, phase, heartbeatArmed, sent)
    }

    /** The handlers other than onmessage leave the message state alone. */
    twostate predicate MessagesUnchanged()
      reads this
    {
      && totalMessages == old(totalMessages)
      && messageBuffer == old(messageBuffer)
      && rawLog == old(rawLog)
      && amountLog == old(amountLog)
      && outcomes == old(outcomes)
    }

    /** The module's initial state and the first connectWebSocket(). */
    constructor (parse: string -> Decoded)
      ensures Valid() && jsonParse == parse
      ensures totalMessages == 0 && messageBuffer == []
      ensures rawLog == [] && amountLog == [] && outcomes == []
      ensures session == 0 && phase == Connecting && !heartbeatArmed && sent == []
    {
      jsonParse := parse;
      totalMessages, messageBuffer := 0, [];
      rawLog, amountLog, outcomes := [], [], [];
      session, phase, heartbeatArmed, sent := 0, Connecting, false, [];
    }

    /** ws.onopen: send the fact join, then the reward join, then arm the heartbeat. */
    method OnOpen()
      requires Valid()
      modifies this
      ensures Valid() && MessagesUnchanged() && session == old(session)
      ensures old(phase) == Connecting ==>
        && sent == old(sent) + [Sent(session, FactJoin), Sent(session, RewardJoin)]
        && phase == Joined && heartbeatArmed
      ensures old(phase) != Connecting ==>
        sent == old(sent) && phase == old(phase) && heartbeatArmed == old(heartbeatArmed)
      ensures forall k :: k != session ==> SessionFrames(sent, k) == old(SessionFrames(sent, k))
    {
      if phase == Connecting {
        OpenKeepsAgreement(session, sent);
        sent := sent + [Sent(session, FactJoin)];
        sent := sent + [Sent(session, RewardJoin)];
        heartbeatArmed := true;
        phase := Joined;
      }
    }

    /** The heartbeat interval firing: one heartbeat on the current connection, if armed. */
    method OnHeartbeatTick()
      requires Valid()
      modifies this
      ensures Valid() && MessagesUnchanged()
      ensures session == old(session) && phase == old(phase) && heartbeatArmed == old(heartbeatArmed)
      ensures old(heartbeatArmed) ==> sent == old(sent) + [Sent(session, Beat)]
      ensures !old(heartbeatArmed) ==> sent == old(sent)
      ensures forall k :: k != session ==> SessionFrames(sent, k) == old(SessionFrames(sent, k))
    {
      if heartbeatArmed {
        TickKeepsAgreement(session, sent);
        sent := sent + [Sent(session, Beat)];
      }
    }

    /** ws.onmessage: count the message, buffer it, redraw (drawn is what updateDisplay
        writes to the cleared terminal), log it raw, then classify it. */
    method OnMessage(data: string) returns (drawn: seq<Line>)
      requires Valid()
      modifies this
      ensures Valid()
      ensures totalMessages == old(totalMessages) + 1
      ensures messageBuffer == old(messageBuffer) + [data]
      ensures drawn == Screen(totalMessages, messageBuffer)
      ensures rawLog == old(rawLog) + [data]
      ensures outcomes == old(outcomes) + [ParseMessage(jsonParse(data))]
      ensures amountLog == old(amountLog) + AmountWrites(ParseMessage(jsonParse(data)))
      ensures session == old(session) && phase == old(phase)
      ensures heartbeatArmed == old(heartbeatArmed) && sent == old(sent)
    {
      var outcome := ParseMessage(jsonParse(data));
      AmountLogAppend(outcomes, outcome);
      totalMessages := totalMessages + 1;
      messageBuffer := messageBuffer + [data];
      drawn := Render(totalMessages, messageBuffer);
      rawLog := rawLog + [data];
      outcomes := outcomes + [outcome];
      amountLog := amountLog + AmountWrites(outcome);
    }

    /** ws.onclose: clear the heartbeat interval and schedule a reconnect. */
    method OnClose()
      requires Valid()
      modifies this
      ensures Valid() && MessagesUnchanged()
      ensures session == old(session) && sent == old(sent)
      ensures phase == Closed && !heartbeatArmed
    {
      heartbeatArmed := false;
      phase := Closed;
    }

    /** The reconnect timer firing: connectWebSocket() opens the next connection. */
    method OnReconnectTimer()
      requires Valid()
      modifies this
      ensures Valid() && MessagesUnchanged() && sent == old(sent)
      ensures old(phase) == Closed ==> session == old(session) + 1 && phase == Connecting && !heartbeatArmed
      ensures old(phase) != Closed ==>
        session == old(session) && phase == old(phase) && heartbeatArmed == old(heartbeatArmed)
    {
      if phase == Closed {
        ReconnectKeepsAgreement(session, sent);
        session := session + 1;
        phase := Connecting;
      }
    }

    /** Dispatches one event to its handler. Only the current connection ever sends, a
        closed connection sends nothing more, and onerror changes nothing. */
    method Handle(e: Event) returns (drawn: seq<Line>)
      requires Valid()
      modifies this
      ensures Valid()
      ensures session >= old(session)
      ensures forall k :: k != session ==> SessionFrames(sent, k) == old(SessionFrames(sent, k))
      ensures old(phase) == Closed ==> sent == old(sent)
      ensures !e.Message? ==> MessagesUnchanged()
      ensures e.Open? && old(phase) == Connecting ==>
        && sent == old(sent) + [Sent(session, FactJoin), Sent(session, RewardJoin)]
        && session == old(session) && phase == Joined && heartbeatArmed
      ensures e.Open? && old(phase) != Connecting ==>
        sent == old(sent) && session == old(session) && phase == old(phase) && heartbeatArmed == old(heartbeatArmed)
      ensures e.HeartbeatTick? ==>
        && session == old(session) && phase == old(phase) && heartbeatArmed == old(heartbeatArmed)
        && sent == old(sent) + (if old(heartbeatArmed) then [Sent(session, Beat)] else [])
      ensures e.Message? ==>
        && totalMessages == old(totalMessages) + 1 && messageBuffer == old(messageBuffer) + [e.data]
        && drawn == Screen(totalMessages, messageBuffer)
        && rawLog == old(rawLog) + [e.data]
        && outcomes == old(outcomes) + [ParseMessage(jsonParse(e.data))]
        && amountLog == old(amountLog) + AmountWrites(ParseMessage(jsonParse(e.data)))
        && session == old(session) && phase == old(phase)
        && heartbeatArmed == old(heartbeatArmed) && sent == old(sent)
      ensures !e.Message? ==> drawn == []
      ensures e.Error? ==> unchanged(this)
      ensures e.Close? ==> phase == Closed && !heartbeatArmed && session == old(session) && sent == old(sent)
      ensures e.ReconnectTimer? && old(phase) == Closed ==>
        session == old(session) + 1 && phase == Connecting && !heartbeatArmed && sent == old(sent)
      ensures e.ReconnectTimer? && old(phase) != Closed ==>
        && session == old(session) && phase == old(phase) && heartbeatArmed == old(heartbeatArmed)
        && sent == old(sent)
    {
      drawn := [];
      match e
      case Open =>
        OnOpen();
      case HeartbeatTick =>
        OnHeartbeatTick();
      case Message(data) =>
        drawn := OnMessage(data);
      case Error =>
      case Close =>
        if phase != Closed {
          OnClose();
        }
      case ReconnectTimer =>
        OnReconnectTimer();
    }
  }

  /** Once onclose has run, the cleared interval sends nothing: a tick that still arrives
      leaves the sends as they were. */
  method CloseStopsHeartbeat(c: WsClient)
    requires c.Valid()
    modifies c
    ensures c.Valid() && c.sent == old(c.sent) && c.phase == Closed
  {
    var _ := c.Handle(Close);
    var _ := c.Handle(HeartbeatTick);
  }
}

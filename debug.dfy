/**
 * ClientDebugSender and ClientDebugReader: clients forward debug lines of three severities to
 * the server, which writes them to its log with the sender's id.
 */
module ClientDebug {
  import opened Wire
  import opened Runtime
  import opened Text
  import opened Wrappers

  const ClientDebugKey := "ClientDebug"

  const SeverityDebug := 0
  const SeverityWarning := 1
  const SeverityError := 2

  /** The payload of a debug message: the severity code, then the text. */
  function DebugPayload(severity: int, message: string): seq<Value>
  {
    [I32(severity), Str(message)]
  }

  /** The message a client sends for one debug line, when messaging is up. */
  function DebugMessage(severity: int, message: string): Message
  {
    Message(ClientDebugKey, ToClient(ServerClientId), DebugPayload(severity, message), Reliable)
  }

  /** DebugToServer, WarningToServer and ErrorToServer: one reliable message to the server, or nothing before messaging is up. */
  method SendToServer(net: NetworkRuntime, severity: int, message: string)
    modifies net
    ensures net.outbox == old(net.outbox) + (if old(net.messagingReady) then [DebugMessage(severity, message)] else [])
    ensures net.log == old(net.log) && net.Session() == old(net.Session())
  {
    if net.messagingReady {
      net.Send(ClientDebugKey, ServerClientId, DebugPayload(severity, message), Reliable);
    }
  }

  method DebugToServer(net: NetworkRuntime, message: string)
    modifies net
    ensures net.outbox == old(net.outbox) + (if old(net.messagingReady) then [DebugMessage(SeverityDebug, message)] else [])
    ensures net.log == old(net.log) && net.Session() == old(net.Session())
  {
    SendToServer(net, SeverityDebug, message);
  }

  method WarningToServer(net: NetworkRuntime, message: string)
    modifies net
    ensures net.outbox == old(net.outbox) + (if old(net.messagingReady) then [DebugMessage(SeverityWarning, message)] else [])
    ensures net.log == old(net.log) && net.Session() == old(net.Session())
  {
    SendToServer(net, SeverityWarning, message);
  }

  method ErrorToServer(net: NetworkRuntime, message: string)
    modifies net
    ensures net.outbox == old(net.outbox) + (if old(net.messagingReady) then [DebugMessage(SeverityError, message)] else [])
    ensures net.log == old(net.log) && net.Session() == old(net.Session())
  {
    SendToServer(net, SeverityError, message);
  }

  /** The sender id and the text as the server prints them: "<id>: <text>". */
  function Attributed(sender: ClientId, message: string): string
  {
    Dec(sender) + ": " + message
  }

  /**
   * The server's log line for a debug message: severity 0 is logged as information, 1 as a
   * warning and every other code as an error; the error prefix spells "client" in lower case.
   */
  function DebugLine(sender: ClientId, severity: int, message: string): (line: LogLine)
    ensures line.Info? <==> severity == SeverityDebug
    ensures line.Warning? <==> severity == SeverityWarning
    ensures line.Error? <==> severity != SeverityDebug && severity != SeverityWarning
  {
    if severity == SeverityDebug then Info("Debug from Client " + Attributed(sender, message))
    else if severity == SeverityWarning then Warning("DebugWarning from Client " + Attributed(sender, message))
    else Error("DebugError from client " + Attributed(sender, message))
  }

  /** The id ends at the first ':', so the attributed text determines both the sender and the text. */
  lemma AttributedInjective(s1: ClientId, m1: string, s2: ClientId, m2: string)
    requires Attributed(s1, m1) == Attributed(s2, m2)
    ensures s1 == s2 && m1 == m2
  {
    var a, b := Dec(s1), Dec(s2);
    var x := Attributed(s1, m1);
    assert x == a + (": " + m1) && x == b + (": " + m2);
    assert x[|a|] == ':' && x[|b|] == ':';
    assert |a| == |b|;
    assert a == x[..|a|] == b;
    DigitsValueOfDec(s1);
    DigitsValueOfDec(s2);
    assert m1 == x[|a| + 2..] == m2;
  }

  /** Distinct debug messages leave distinct log lines: the line determines sender, text and severity class. */
  lemma DebugLineInjective(s1: ClientId, v1: int, m1: string, s2: ClientId, v2: int, m2: string)
    requires DebugLine(s1, v1, m1) == DebugLine(s2, v2, m2)
    ensures s1 == s2 && m1 == m2
    ensures v1 == SeverityDebug <==> v2 == SeverityDebug
    ensures v1 == SeverityWarning <==> v2 == SeverityWarning
  {
    var p := if v1 == SeverityDebug then "Debug from Client "
             else if v1 == SeverityWarning then "DebugWarning from Client "
             else "DebugError from client ";
    var t := DebugLine(s1, v1, m1).text;
    assert t == p + Attributed(s1, m1) && t == p + Attributed(s2, m2);
    assert t[|p|..] == Attributed(s1, m1) && t[|p|..] == Attributed(s2, m2);
    AttributedInjective(s1, m1, s2, m2);
  }

  /** A registration made by RegisterMsgHandlers: the message key whose handler was installed. */
  datatype Registration = Registration(key: string)

  /** The index of the first frame in which messaging was up. */
  function FirstReady(readiness: seq<bool>): (r: Option<nat>)
    ensures r.Some? ==> r.value < |readiness| && readiness[r.value] &&
                        forall j :: 0 <= j < r.value ==> !readiness[j]
    ensures r.None? ==> forall j :: 0 <= j < |readiness| ==> !readiness[j]
  {
    if readiness == [] then None
    else if readiness[0] then Some(0)
    else match FirstReady(readiness[1..])
      case None => None
      case Some(k) => Some(k + 1)
  }

  class ClientDebugReader {
    const net: NetworkRuntime
    var msgHandlerSet: bool
    var registrations: seq<Registration>

    constructor (net: NetworkRuntime)
      ensures this.net == net && !msgHandlerSet && registrations == []
    {
      this.net := net;
      msgHandlerSet := false;
      registrations := [];
    }

    /**
     * RegisterMsgHandlers, the coroutine: once per frame, until the handler is set, registers
     * it when messaging is up. `readiness` says per frame whether it was; the result is the
     * number of frames the coroutine ran.
     */
    method RegisterMsgHandlers(readiness: seq<bool>) returns (frames: nat)
      modifies this
      ensures old(msgHandlerSet) ==> frames == 0 && msgHandlerSet && registrations == old(registrations)
      ensures !old(msgHandlerSet) ==> match FirstReady(readiness)
        case Some(k) => frames == k + 1 && msgHandlerSet && registrations == old(registrations) + [Registration(ClientDebugKey)]
        case None => frames == |readiness| && !msgHandlerSet && registrations == old(registrations)
    {
      frames := 0;
      while !msgHandlerSet && frames < |readiness|
        invariant frames <= |readiness|
        invariant old(msgHandlerSet) ==> frames == 0 && msgHandlerSet && registrations == old(registrations)
        invariant !old(msgHandlerSet) && !msgHandlerSet ==>
          registrations == old(registrations) && forall j :: 0 <= j < frames ==> !readiness[j]
        invariant !old(msgHandlerSet) && msgHandlerSet ==>
          0 < frames && readiness[frames - 1] && (forall j :: 0 <= j < frames - 1 ==> !readiness[j]) &&
          registrations == old(registrations) + [Registration(ClientDebugKey)]
        decreases |readiness| - frames
      {
        if readiness[frames] {
          registrations := registrations + [Registration(ClientDebugKey)];
          msgHandlerSet := true;
        }
        frames := frames + 1;
      }
      if !old(msgHandlerSet) && msgHandlerSet {
        var r := FirstReady(readiness);
        assert r.Some? && r.value == frames - 1;
      }
    }

    /** ClientDebugHandler: reads the severity and the text and logs DebugLine. */
    method ClientDebugHandler(senderClientId: ClientId, reader: Reader)
      requires reader.pos + 2 <= |reader.data|
      requires reader.data[reader.pos].I32? && reader.data[reader.pos + 1].Str?
      modifies reader, net
      ensures reader.pos == old(reader.pos) + 2
      ensures net.log == old(net.log) +
        [DebugLine(senderClientId, reader.data[old(reader.pos)].i, reader.data[old(reader.pos) + 1].s)]
      ensures net.outbox == old(net.outbox) && net.Session() == old(net.Session())
    {
      var severity := reader.ReadInt();
      var message := reader.ReadString();
      net.Log(DebugLine(senderClientId, severity, message));
    }
  }

  /**
   * End to end: the payload a client sends, read by the server's handler from the start,
   * produces the log line for that client, severity and text.
   */
  method DeliverDebug(server: ClientDebugReader, sender: ClientId, severity: int, message: string)
    modifies server.net
    ensures server.net.log == old(server.net.log) + [DebugLine(sender, severity, message)]
  {
    var reader := new Reader(DebugPayload(severity, message));
    server.ClientDebugHandler(sender, reader);
  }
}
